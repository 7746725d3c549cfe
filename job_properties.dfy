/**
 * Properties of the configuration pass: what one configureJob call yields,
 * which keys it reads, how one key's effect is isolated from the others',
 * and a few concrete configurations.
 */
module JobProperties {
  import opened Wrappers
  import opened StringUtils
  import opened Configurations
  import opened Jobs

  // ---------------------------------------------------------------------
  // One job
  // ---------------------------------------------------------------------

  /** The class value names a loadable class that is a Job. */
  predicate ClassUsable(env: Environment, jobConfig: SubsetView)
  {
    var cn := jobConfig.GetString("class");
    cn.Some? && cn.value in env.classes && env.classes[cn.value] == JobClass
  }

  /** Every configured delay, repeat and enabled value is readable. */
  predicate FieldsReadable(env: Environment, jobConfig: SubsetView)
  {
    && (jobConfig.ContainsKey("delay") ==> ParseDuration(env, jobConfig, "delay").Some?)
    && (jobConfig.ContainsKey("repeat") ==> ParseDuration(env, jobConfig, "repeat").Some?)
    && (jobConfig.ContainsKey("enabled") ==> env.toBoolean(jobConfig.GetString("enabled").value).Some?)
  }

  /**
   * The three ways configureJob ends: it registers exactly when the class is
   * usable and every configured field is readable; it reports an error
   * exactly when a class value is given but is unknown or not a Job; and it
   * lets an exception escape exactly when the class value is missing or a
   * configured field of a usable class is unreadable.
   */
  lemma OutcomeCases(env: Environment, jobName: string, jobConfig: SubsetView)
    ensures var r := ConfigureJobResult(env, jobName, jobConfig);
            && (r.Registered? <==> ClassUsable(env, jobConfig) && FieldsReadable(env, jobConfig))
            && (r.Rejected? <==> jobConfig.ContainsKey("class") && !ClassUsable(env, jobConfig))
            && (r.Threw? <==> !jobConfig.ContainsKey("class")
                              || (ClassUsable(env, jobConfig) && !FieldsReadable(env, jobConfig)))
  {
  }

  /** The error reported for a rejected class names that class and the reason. */
  lemma RejectionNamesClass(env: Environment, jobName: string, jobConfig: SubsetView, e: ConfigError)
    requires ConfigureJobResult(env, jobName, jobConfig) == Rejected(e)
    ensures Some(e.className) == jobConfig.GetString("class")
    ensures e.ClassNotFound? <==> e.className !in env.classes
    ensures e.NotAJob? <==> e.className in env.classes && env.classes[e.className] == NonJobClass
  {
  }

  /**
   * A registered descriptor: its class is the configured class, its name is
   * the job name, and delay, repeat, group and enabled are set if and only
   * if their keys are present, each to the value read from that key.
   */
  lemma RegisteredFields(env: Environment, jobName: string, jobConfig: SubsetView, d: JobDescriptor)
    requires ConfigureJobResult(env, jobName, jobConfig) == Registered(d)
    ensures jobConfig.GetString("class") == Some(d.jobClass)
    ensures d.name == Some(jobName)
    ensures d.delay.Some? <==> jobConfig.ContainsKey("delay")
    ensures d.delay.Some? ==> d.delay == env.timeSpanMillis(jobConfig.GetString("delay").value)
    ensures d.repeat.Some? <==> jobConfig.ContainsKey("repeat")
    ensures d.repeat.Some? ==> d.repeat == env.timeSpanMillis(jobConfig.GetString("repeat").value)
    ensures d.group == jobConfig.GetString("group")
    ensures d.enabled.Some? <==> jobConfig.ContainsKey("enabled")
    ensures d.enabled.Some? ==> d.enabled == env.toBoolean(jobConfig.GetString("enabled").value)
  {
  }

  /**
   * A time span that cannot be parsed is not turned into an accumulated
   * error: for a usable class it escapes configureJob, the delay first.
   */
  lemma BadTimeSpanEscapes(env: Environment, jobName: string, jobConfig: SubsetView, key: string)
    requires key == "delay" || key == "repeat"
    requires ClassUsable(env, jobConfig)
    requires jobConfig.ContainsKey(key) && ParseDuration(env, jobConfig, key).None?
    requires key == "repeat" ==> !ReadDuration(env, jobConfig, "delay").Malformed?
    ensures ConfigureJobResult(env, jobName, jobConfig)
            == Threw(BadTimeSpan(jobName, key, jobConfig.GetString(key).value))
  {
  }

  /** The five keys configureJob reads under a job name. */
  const JobFields: set<string> := {"class", "delay", "repeat", "group", "enabled"}

  /** Two configurations hold the same entry (or both none) under `name.field`. */
  predicate SameEntry(m1: map<string, string>, m2: map<string, string>, name: string, field: string)
  {
    var k := name + "." + field;
    (k in m1 <==> k in m2) && (k in m1 ==> m1[k] == m2[k])
  }

  /**
   * configureJob reads only the job's own sub-configuration: two
   * configurations that agree on `name.class`, `name.delay`, `name.repeat`,
   * `name.group` and `name.enabled` configure the job identically, whatever
   * else they hold.
   */
  lemma ReadsOnlyOwnSubset(env: Environment, name: string, c1: Configuration, c2: Configuration)
    requires forall f :: f in JobFields ==> SameEntry(c1.values, c2.values, name, f)
    ensures ConfigureJobResult(env, name, c1.Subset(name)) == ConfigureJobResult(env, name, c2.Subset(name))
  {
  }

  // ---------------------------------------------------------------------
  // The pass
  // ---------------------------------------------------------------------

  /** `st` followed by what `more` added: the lists concatenated, the failure of `more`. */
  function Extend(st: PassState, more: PassState): PassState
  {
    PassState(st.registered + more.registered, st.errors + more.errors,
              st.warnings + more.warnings, more.failure)
  }

  /** What a key adds to a pass that has not failed, independent of what came before. */
  function Effect(env: Environment, cfg: Configuration, key: string): PassState
  {
    StepKey(env, cfg, Start, key)
  }

  lemma StepExtend(env: Environment, cfg: Configuration, st: PassState, more: PassState, key: string)
    ensures StepKey(env, cfg, Extend(st, more), key) == Extend(st, StepKey(env, cfg, more, key))
  {
  }

  /** The pass over `keys` adds the same to any starting state. */
  lemma {:induction false} RunKeysExtend(env: Environment, cfg: Configuration, keys: seq<string>, st: PassState, more: PassState)
    ensures RunKeys(env, cfg, keys, Extend(st, more)) == Extend(st, RunKeys(env, cfg, keys, more))
    decreases |keys|
  {
    if keys != [] && more.failure.None? {
      StepExtend(env, cfg, st, more, keys[0]);
      RunKeysExtend(env, cfg, keys[1..], st, StepKey(env, cfg, more, keys[0]));
    }
  }

  /** Running two key sequences one after the other is running their concatenation. */
  lemma {:induction false} RunKeysAppend(env: Environment, cfg: Configuration, k1: seq<string>, k2: seq<string>, st: PassState)
    ensures RunKeys(env, cfg, k1 + k2, st) == RunKeys(env, cfg, k2, RunKeys(env, cfg, k1, st))
    decreases |k1|
  {
    if k1 == [] {
      assert k1 + k2 == k2;
    } else if st.failure.None? {
      assert (k1 + k2)[0] == k1[0] && (k1 + k2)[1..] == k1[1..] + k2;
      RunKeysAppend(env, cfg, k1[1..], k2, StepKey(env, cfg, st, k1[0]));
    }
  }

  /** A state that has not failed is itself extended by nothing. */
  lemma ExtendStart(st: PassState)
    requires st.failure.None?
    ensures Extend(st, Start) == st
  {
  }

  /**
   * Inserting a key that does not fail the pass anywhere in the key
   * sequence adds its own effect at that point and changes nothing else.
   */
  lemma InsertKey(env: Environment, cfg: Configuration, pre: seq<string>, k: string, post: seq<string>, st: PassState)
    requires Effect(env, cfg, k).failure.None?
    ensures var mid := RunKeys(env, cfg, pre, st);
            var rest := RunKeys(env, cfg, post, Start);
            && (mid.failure.Some? ==> RunKeys(env, cfg, pre + [k] + post, st) == mid == RunKeys(env, cfg, pre + post, st))
            && (mid.failure.None? ==>
                  && RunKeys(env, cfg, pre + [k] + post, st) == Extend(Extend(mid, Effect(env, cfg, k)), rest)
                  && RunKeys(env, cfg, pre + post, st) == Extend(mid, rest))
  {
    var mid := RunKeys(env, cfg, pre, st);
    assert pre + [k] + post == pre + ([k] + post);
    RunKeysAppend(env, cfg, pre, [k] + post, st);
    RunKeysAppend(env, cfg, pre, post, st);
    assert ([k] + post)[0] == k && ([k] + post)[1..] == post;
    if mid.failure.None? {
      ExtendStart(mid);
      StepExtend(env, cfg, mid, Start, k);
      var after := Extend(mid, Effect(env, cfg, k));
      ExtendStart(after);
      RunKeysExtend(env, cfg, post, after, Start);
      RunKeysExtend(env, cfg, post, mid, Start);
    }
  }

  /**
   * A key that does not split into exactly two segments is only skipped
   * with a warning: removing it from the key sequence changes neither the
   * registrations, nor the errors, nor whether the pass fails.
   */
  lemma InvalidKeySkipped(env: Environment, cfg: Configuration, pre: seq<string>, k: string, post: seq<string>, st: PassState)
    requires |Split(k)| != 2
    ensures var with := RunKeys(env, cfg, pre + [k] + post, st);
            var without := RunKeys(env, cfg, pre + post, st);
            var mid := RunKeys(env, cfg, pre, st);
            var j := |mid.warnings|;
            && with.registered == without.registered
            && with.errors == without.errors
            && with.failure == without.failure
            && j <= |without.warnings|
            && (mid.failure.Some? ==> with.warnings == without.warnings)
            && (mid.failure.None? ==>
                  with.warnings == without.warnings[..j] + [InvalidKey(k)] + without.warnings[j..])
  {
    InsertKey(env, cfg, pre, k, post, st);
    var mid := RunKeys(env, cfg, pre, st);
    if mid.failure.None? {
      var rest := RunKeys(env, cfg, post, Start);
      var without := Extend(mid, rest);
      assert without.warnings[..|mid.warnings|] == mid.warnings;
      assert without.warnings[|mid.warnings|..] == rest.warnings;
    }
  }

  /**
   * A two-segment key whose second segment is not "class" (such as
   * `name.repeat`) has no effect of its own on the pass.
   */
  lemma FieldKeyInert(env: Environment, cfg: Configuration, pre: seq<string>, k: string, post: seq<string>, st: PassState)
    requires |Split(k)| == 2 && Split(k)[1] != "class"
    ensures RunKeys(env, cfg, pre + [k] + post, st) == RunKeys(env, cfg, pre + post, st)
  {
    InsertKey(env, cfg, pre, k, post, st);
    var mid := RunKeys(env, cfg, pre, st);
    if mid.failure.None? {
      assert Extend(mid, Effect(env, cfg, k)) == mid;
    }
  }

  /**
   * A job whose class is unknown or not a Job adds exactly one error, at
   * its own place in the error list, and nothing else: every other key is
   * processed as if the job's key were absent.
   */
  lemma RejectedJobIsolated(env: Environment, cfg: Configuration, pre: seq<string>, k: string, post: seq<string>, st: PassState)
    requires IsClassKey(k) && ClassKeyOutcome(env, cfg, k).Rejected?
    ensures var with := RunKeys(env, cfg, pre + [k] + post, st);
            var without := RunKeys(env, cfg, pre + post, st);
            var mid := RunKeys(env, cfg, pre, st);
            var j := |mid.errors|;
            && with.registered == without.registered
            && with.warnings == without.warnings
            && with.failure == without.failure
            && j <= |without.errors|
            && (mid.failure.Some? ==> with.errors == without.errors)
            && (mid.failure.None? ==>
                  with.errors == without.errors[..j] + [ClassKeyOutcome(env, cfg, k).error] + without.errors[j..])
  {
    InsertKey(env, cfg, pre, k, post, st);
    var mid := RunKeys(env, cfg, pre, st);
    if mid.failure.None? {
      var rest := RunKeys(env, cfg, post, Start);
      var without := Extend(mid, rest);
      assert without.errors[..|mid.errors|] == mid.errors;
      assert without.errors[|mid.errors|..] == rest.errors;
    }
  }

  /**
   * An exception escaping configureJob ends the pass there: what was
   * registered, reported and logged before stays, and no later key is
   * processed.
   */
  lemma FailureEndsPass(env: Environment, cfg: Configuration, pre: seq<string>, k: string, post: seq<string>, st: PassState)
    requires IsClassKey(k) && ClassKeyOutcome(env, cfg, k).Threw?
    requires RunKeys(env, cfg, pre, st).failure.None?
    ensures RunKeys(env, cfg, pre + [k] + post, st)
            == RunKeys(env, cfg, pre, st).(failure := Some(ClassKeyOutcome(env, cfg, k).failure))
  {
    assert pre + [k] + post == pre + ([k] + post);
    RunKeysAppend(env, cfg, pre, [k] + post, st);
    assert ([k] + post)[0] == k && ([k] + post)[1..] == post;
  }

  /** The class keys among `keys`, in order. */
  function ClassKeys(keys: seq<string>): (r: seq<string>)
    ensures forall i :: 0 <= i < |r| ==> r[i] in keys && IsClassKey(r[i])
  {
    if keys == [] then []
    else (if IsClassKey(keys[0]) then [keys[0]] else []) + ClassKeys(keys[1..])
  }

  /**
   * Registrations and errors are only ever appended, and a pass that does
   * not fail registers or reports exactly once per class key.
   */
  lemma {:induction false} EveryClassKeyAccounted(env: Environment, cfg: Configuration, keys: seq<string>, st: PassState)
    ensures var r := RunKeys(env, cfg, keys, st);
            && st.registered <= r.registered
            && st.errors <= r.errors
            && (r.failure.None? ==>
                  |r.registered| + |r.errors| == |st.registered| + |st.errors| + |ClassKeys(keys)|)
    decreases |keys|
  {
    if keys != [] && st.failure.None? {
      EveryClassKeyAccounted(env, cfg, keys[1..], StepKey(env, cfg, st, keys[0]));
    }
  }

  /**
   * The registrations of a pass are exactly the descriptors its class keys
   * yield: each one added comes from some class key, and when the pass does
   * not fail every class key whose job registers has its descriptor there.
   */
  lemma {:induction false} RegisteredComeFromClassKeys(env: Environment, cfg: Configuration, keys: seq<string>, st: PassState)
    ensures var r := RunKeys(env, cfg, keys, st);
            forall d :: d in r.registered ==>
              d in st.registered || exists k :: k in keys && IsClassKey(k) && ClassKeyOutcome(env, cfg, k) == Registered(d)
    ensures var r := RunKeys(env, cfg, keys, st);
            r.failure.None? ==>
              forall k :: k in keys && IsClassKey(k) && ClassKeyOutcome(env, cfg, k).Registered? ==>
                ClassKeyOutcome(env, cfg, k).descriptor in r.registered
    decreases |keys|
  {
    if keys != [] && st.failure.None? {
      var next := StepKey(env, cfg, st, keys[0]);
      RegisteredComeFromClassKeys(env, cfg, keys[1..], next);
      EveryClassKeyAccounted(env, cfg, keys[1..], next);
      var r := RunKeys(env, cfg, keys, st);
      forall d | d in r.registered
        ensures d in st.registered || exists k :: k in keys && IsClassKey(k) && ClassKeyOutcome(env, cfg, k) == Registered(d)
      {
        if d in next.registered && d !in st.registered {
          assert IsClassKey(keys[0]) && ClassKeyOutcome(env, cfg, keys[0]) == Registered(d);
        } else if d !in next.registered {
          var k :| k in keys[1..] && IsClassKey(k) && ClassKeyOutcome(env, cfg, k) == Registered(d);
          assert k in keys;
        }
      }
      if r.failure.None? {
        forall k | k in keys && IsClassKey(k) && ClassKeyOutcome(env, cfg, k).Registered?
          ensures ClassKeyOutcome(env, cfg, k).descriptor in r.registered
        {
          if k == keys[0] {
            assert ClassKeyOutcome(env, cfg, k).descriptor in next.registered;
          } else {
            assert k in keys[1..];
          }
        }
      }
    }
  }

  /** The descriptors the registering class keys among `keys` yield, in key order. */
  function RegisteredBy(env: Environment, cfg: Configuration, keys: seq<string>): seq<JobDescriptor>
  {
    if keys == [] then []
    else
      (if IsClassKey(keys[0]) && ClassKeyOutcome(env, cfg, keys[0]).Registered?
       then [ClassKeyOutcome(env, cfg, keys[0]).descriptor] else [])
      + RegisteredBy(env, cfg, keys[1..])
  }

  /** The errors the rejected class keys among `keys` yield, in key order. */
  function RejectedBy(env: Environment, cfg: Configuration, keys: seq<string>): seq<ConfigError>
  {
    if keys == [] then []
    else
      (if IsClassKey(keys[0]) && ClassKeyOutcome(env, cfg, keys[0]).Rejected?
       then [ClassKeyOutcome(env, cfg, keys[0]).error] else [])
      + RejectedBy(env, cfg, keys[1..])
  }

  /**
   * A pass that starts unfailed fails exactly when some class key's job
   * lets an exception escape.
   */
  lemma {:induction false} PassFailsIffJobThrows(env: Environment, cfg: Configuration, keys: seq<string>, st: PassState)
    requires st.failure.None?
    ensures RunKeys(env, cfg, keys, st).failure.Some?
            <==> exists k :: k in keys && IsClassKey(k) && ClassKeyOutcome(env, cfg, k).Threw?
    decreases |keys|
  {
    if keys != [] {
      var next := StepKey(env, cfg, st, keys[0]);
      if next.failure.Some? {
        assert IsClassKey(keys[0]) && ClassKeyOutcome(env, cfg, keys[0]).Threw?;
      } else {
        PassFailsIffJobThrows(env, cfg, keys[1..], next);
        if exists k :: k in keys && IsClassKey(k) && ClassKeyOutcome(env, cfg, k).Threw? {
          var k :| k in keys && IsClassKey(k) && ClassKeyOutcome(env, cfg, k).Threw?;
          if k != keys[0] {
            assert k in keys[1..];
          }
        }
      }
    }
  }

  /**
   * A pass that does not fail registers exactly the descriptors of its
   * registering class keys and reports exactly the errors of its rejected
   * class keys, one each and in key order, after what it started with.
   */
  lemma {:induction false} PassResultPerClassKey(env: Environment, cfg: Configuration, keys: seq<string>, st: PassState)
    ensures var r := RunKeys(env, cfg, keys, st);
            r.failure.None? ==>
              && r.registered == st.registered + RegisteredBy(env, cfg, keys)
              && r.errors == st.errors + RejectedBy(env, cfg, keys)
    decreases |keys|
  {
    if keys != [] && st.failure.None? {
      var next := StepKey(env, cfg, st, keys[0]);
      PassResultPerClassKey(env, cfg, keys[1..], next);
      var r := RunKeys(env, cfg, keys, st);
      if r.failure.None? {
        assert next.failure.None?;
        var regHead := if IsClassKey(keys[0]) && ClassKeyOutcome(env, cfg, keys[0]).Registered?
                       then [ClassKeyOutcome(env, cfg, keys[0]).descriptor] else [];
        var errHead := if IsClassKey(keys[0]) && ClassKeyOutcome(env, cfg, keys[0]).Rejected?
                       then [ClassKeyOutcome(env, cfg, keys[0]).error] else [];
        assert next.registered == st.registered + regHead;
        assert next.errors == st.errors + errHead;
        assert st.registered + regHead + RegisteredBy(env, cfg, keys[1..])
               == st.registered + (regHead + RegisteredBy(env, cfg, keys[1..]));
        assert st.errors + errHead + RejectedBy(env, cfg, keys[1..])
               == st.errors + (errHead + RejectedBy(env, cfg, keys[1..]));
      }
    }
  }

  /**
   * parseDuration's milliseconds are what the descriptor carries: a job
   * whose class is usable and whose fields are readable registers with
   * delay and repeat equal to ParseDuration of their keys where present and
   * unset where absent.
   */
  lemma ParseDurationFeedsDescriptor(env: Environment, jobName: string, jobConfig: SubsetView)
    requires ClassUsable(env, jobConfig) && FieldsReadable(env, jobConfig)
    ensures var r := ConfigureJobResult(env, jobName, jobConfig);
            && r.Registered?
            && r.descriptor.delay
               == (if jobConfig.ContainsKey("delay") then ParseDuration(env, jobConfig, "delay") else None)
            && r.descriptor.repeat
               == (if jobConfig.ContainsKey("repeat") then ParseDuration(env, jobConfig, "repeat") else None)
  {
  }
}
