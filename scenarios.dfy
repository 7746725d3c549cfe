/**
 * Concrete configurations run through the pass: the documented cleanup job,
 * and two keys with stray separators that split like a class key.
 */
module Scenarios {
  import opened Wrappers
  import opened StringUtils
  import opened Configurations
  import opened Jobs

  /** Keys under one job name differ exactly when their field parts differ. */
  lemma SamePrefixKeys(name: string, s: string, t: string)
    ensures name + s == name + t <==> s == t
  {
    if name + s == name + t {
      assert (name + s)[|name|..] == s && (name + t)[|name|..] == t;
    }
  }

  /**
   * A job configured by `n.class`, `n.repeat` and `n.enabled` (the shape
   * `cleanup.class = CleanupJob`, `cleanup.repeat = 10s`,
   * `cleanup.enabled = true`) with a loadable Job class and readable values
   * registers one descriptor: name n, the parsed repeat, the parsed enabled
   * flag, no delay and no group; nothing else is reported or logged.
   */
  lemma RepeatingJobRegistered(n: string, env: Environment, className: string, every: string, millis: int, flag: string, on: bool)
    requires n != [] && '.' !in n
    requires className in env.classes && env.classes[className] == JobClass
    requires env.timeSpanMillis(every) == Some(millis) && env.toBoolean(flag) == Some(on)
    ensures var cfg := Configuration(
              [n + ".class", n + ".repeat", n + ".enabled"],
              map[n + ".class" := className, n + ".repeat" := every, n + ".enabled" := flag]);
            RunKeys(env, cfg, cfg.keys, Start)
              == PassState([JobDescriptor(className, Some(n), None, Some(millis), None, Some(on))], [], [], None)
  {
    var cfg := Configuration(
      [n + ".class", n + ".repeat", n + ".enabled"],
      map[n + ".class" := className, n + ".repeat" := every, n + ".enabled" := flag]);
    var d := JobDescriptor(className, Some(n), None, Some(millis), None, Some(on));
    RepeatingJobOutcome(n, env, className, every, millis, flag, on);
    TwoSegments(n, "class");
    TwoSegments(n, "repeat");
    TwoSegments(n, "enabled");
    assert n + ".class" == n + "." + "class";
    assert n + ".repeat" == n + "." + "repeat";
    assert n + ".enabled" == n + "." + "enabled";
    var done := PassState([d], [], [], None);
    assert StepKey(env, cfg, Start, n + ".class") == done;
    assert StepKey(env, cfg, done, n + ".repeat") == done;
    assert StepKey(env, cfg, done, n + ".enabled") == done;
    assert cfg.keys[1..][1..] == [n + ".enabled"];
    assert RunKeys(env, cfg, cfg.keys, Start) == RunKeys(env, cfg, cfg.keys[1..], done);
    assert RunKeys(env, cfg, cfg.keys[1..], done) == RunKeys(env, cfg, cfg.keys[1..][1..], done);
    assert RunKeys(env, cfg, cfg.keys[1..][1..], done) == RunKeys(env, cfg, [], done);
  }

  /** The configureJob outcome behind RepeatingJobRegistered. */
  lemma RepeatingJobOutcome(n: string, env: Environment, className: string, every: string, millis: int, flag: string, on: bool)
    requires className in env.classes && env.classes[className] == JobClass
    requires env.timeSpanMillis(every) == Some(millis) && env.toBoolean(flag) == Some(on)
    ensures var values := map[n + ".class" := className, n + ".repeat" := every, n + ".enabled" := flag];
            ConfigureJobResult(env, n, SubsetView(values, n))
              == Registered(JobDescriptor(className, Some(n), None, Some(millis), None, Some(on)))
  {
    var values := map[n + ".class" := className, n + ".repeat" := every, n + ".enabled" := flag];
    var view := SubsetView(values, n);
    SamePrefixKeys(n, ".class", ".repeat");
    SamePrefixKeys(n, ".class", ".enabled");
    SamePrefixKeys(n, ".repeat", ".enabled");
    SamePrefixKeys(n, ".delay", ".class");
    SamePrefixKeys(n, ".delay", ".repeat");
    SamePrefixKeys(n, ".delay", ".enabled");
    SamePrefixKeys(n, ".group", ".class");
    SamePrefixKeys(n, ".group", ".repeat");
    SamePrefixKeys(n, ".group", ".enabled");
    assert n + "." + "class" == n + ".class";
    assert n + "." + "repeat" == n + ".repeat";
    assert n + "." + "enabled" == n + ".enabled";
    assert n + "." + "delay" == n + ".delay";
    assert n + "." + "group" == n + ".group";
    assert view.GetString("class") == Some(className);
    assert !view.ContainsKey("delay") && !view.ContainsKey("group");
    assert view.GetString("repeat") == Some(every);
    assert view.GetString("enabled") == Some(flag);
  }

  /**
   * `a.class` and `a..class` both split into [a, class] and both read
   * `a.class` through the subset, so the same job is registered twice.
   */
  lemma DoubledSeparatorRegistersTwice(a: string, env: Environment, className: string)
    requires a != [] && '.' !in a
    requires className in env.classes && env.classes[className] == JobClass
    ensures var cfg := Configuration([a + ".class", a + "..class"], map[a + ".class" := className, a + "..class" := className]);
            var d := JobDescriptor(className, Some(a), None, None, None, None);
            RunKeys(env, cfg, cfg.keys, Start) == PassState([d, d], [], [NoEnabledKey(a), NoEnabledKey(a)], None)
  {
    var cfg := Configuration([a + ".class", a + "..class"], map[a + ".class" := className, a + "..class" := className]);
    var d := JobDescriptor(className, Some(a), None, None, None, None);
    DoubledSeparatorOutcome(a, env, className);
    TwoSegments(a, "class");
    StraySeparatorsDropped(a, "class");
    assert a + ".class" == a + "." + "class";
    assert a + "..class" == a + ".." + "class";
    var once := PassState([d], [], [NoEnabledKey(a)], None);
    assert StepKey(env, cfg, Start, a + ".class") == once;
    assert StepKey(env, cfg, once, a + "..class") == PassState([d, d], [], [NoEnabledKey(a), NoEnabledKey(a)], None);
    assert cfg.keys[1..] == [a + "..class"];
    assert RunKeys(env, cfg, cfg.keys, Start) == RunKeys(env, cfg, cfg.keys[1..], once);
  }

  /** The configureJob outcome behind DoubledSeparatorRegistersTwice: only `a.class` is read. */
  lemma DoubledSeparatorOutcome(a: string, env: Environment, className: string)
    requires className in env.classes && env.classes[className] == JobClass
    ensures var values := map[a + ".class" := className, a + "..class" := className];
            ConfigureJobResult(env, a, SubsetView(values, a))
              == Registered(JobDescriptor(className, Some(a), None, None, None, None))
  {
    var values := map[a + ".class" := className, a + "..class" := className];
    var view := SubsetView(values, a);
    SamePrefixKeys(a, ".delay", ".class");
    SamePrefixKeys(a, ".delay", "..class");
    SamePrefixKeys(a, ".repeat", ".class");
    SamePrefixKeys(a, ".repeat", "..class");
    SamePrefixKeys(a, ".group", ".class");
    SamePrefixKeys(a, ".group", "..class");
    SamePrefixKeys(a, ".enabled", ".class");
    SamePrefixKeys(a, ".enabled", "..class");
    assert a + "." + "class" == a + ".class";
    assert a + "." + "delay" == a + ".delay";
    assert a + "." + "repeat" == a + ".repeat";
    assert a + "." + "group" == a + ".group";
    assert a + "." + "enabled" == a + ".enabled";
    assert view.GetString("class") == Some(className);
    assert !view.ContainsKey("delay") && !view.ContainsKey("repeat");
    assert !view.ContainsKey("group") && !view.ContainsKey("enabled");
  }

  /**
   * `.x.class` splits into [x, class], but the subset reads `x.class`,
   * which is absent: the state check fails and the pass ends.
   */
  lemma LeadingSeparatorEndsPass(x: string, env: Environment, className: string)
    requires x != [] && '.' !in x
    ensures var cfg := Configuration(["." + x + ".class"], map["." + x + ".class" := className]);
            RunKeys(env, cfg, cfg.keys, Start) == Start.(failure := Some(MissingClassKey(x)))
  {
    var key := "." + x + ".class";
    var cfg := Configuration([key], map[key := className]);
    StraySeparatorsDropped(x, "class");
    assert key == "." + x + "." + "class";
    assert (x + "." + "class")[0] != '.';
    assert !cfg.Subset(x).ContainsKey("class");
    var failed := Start.(failure := Some(MissingClassKey(x)));
    assert StepKey(env, cfg, Start, key) == failed;
    assert RunKeys(env, cfg, cfg.keys, Start) == RunKeys(env, cfg, [], failed);
  }
}
