# Configuration-to-job translation of the Ness Quartz module

This project models how `NessQuartzModule` turns the flat `ness.job`
configuration namespace into Quartz job registrations. `configureJobs` walks
the keys of the namespace. It splits each key on `.` the way
`StringUtils.split` does: empty tokens are dropped. A key that does not give
exactly two segments is logged and skipped. A key `<name>.class` calls
`configureJob(name, subset(name))`. That call loads the class. It then fills a
`QuartzJobBinder` with the name and with `delay`, `repeat`, `group` and
`enabled` where those keys are present, and registers it. An unknown class and
a class that is not a `Job` are reported with `addError`, and the loop goes on.
Every other exception escapes and ends the pass.

Layout:

- `string_utils.dfy`: `Token`, `Split` (the split semantics), `Join`, and the lemmas about them.
- `configurations.dfy`: a configuration as its keys in iteration order plus a value map. `SubsetView` is `subset(prefix)`: key `k` reads `prefix.k` of the parent. This view is an abstraction of the configuration library and is given by definition, with no contract of its own; `ReadsOnlyOwnSubset` states what `configureJob` reads through it.
- `jobs.dfy`: the value-level meaning of the pass. `ConfigureJobResult` gives the outcome of one `configureJob` call. `StepKey` is one loop iteration. `RunKeys` is the whole loop. `ParseDuration` is `parseDuration`; `ParseDurationFeedsDescriptor` and `BadTimeSpanEscapes` state what it contributes. Collaborators are explicit: an `Environment` holds the class registry (`Class.forName` plus `asSubclass(Job.class)`), the time-span parser and the boolean conversion.
- `quartz_job_binder.dfy`: the fluent binder as a class. It has one setter per field and a terminal `Register`, and it is single-use.
- `ness_quartz_module.dfy`: the module as a class whose `registered`, `errors` and `warnings` fields the methods append to. `ConfigureJob` and `ConfigureJobs` are imperative, and each is proved equal to its specification function. An exception that escapes is returned as a `Failure`.
- `job_properties.dfy`: properties of one job and of the whole pass. These cover skip rules, field propagation, error isolation, failure ending the pass, and counting.
- `scenarios.dfy`: concrete configurations run through the pass.

Behaviours of the code worth knowing, each stated by a lemma:

- An unparsable duration fails the whole pass, not just that job. `new TimeSpan(...)` throws, nothing in `configureJob` catches it, and the rest of the pass is not run. The same holds for an `enabled` value the boolean conversion rejects (`BadTimeSpanEscapes`, `FailureEndsPass`).
- `a.class` and `a..class` register job `a` twice: both split into `[a, class]`, and both read `a.class` through the subset (`DoubledSeparatorRegistersTwice`).
- A key such as `.x.class` splits into `[x, class]`, but the subset reads `x.class`. If that key is absent, the `checkState` at line 91 throws, and the pass ends instead of skipping the key (`LeadingSeparatorEndsPass`).
- A missing `enabled` is not resolved to a default. It stays unset and a warning is logged.

## Model

| member | source | states |
|---|---|---|
| StringUtils.Split | src/main/java/ness/quartz/NessQuartzModule.java:77 | every segment of a split key is non-empty and holds no `.` |
| StringUtils.SplitConcat | src/main/java/ness/quartz/NessQuartzModule.java:77 | splitting `a.b` gives the segments of `a` followed by those of `b`; a separator never yields a token |
| StringUtils.SplitJoin | src/main/java/ness/quartz/NessQuartzModule.java:77 | round trip: joining non-empty dot-free segments with `.` and splitting again gives the same segments |
| StringUtils.TwoSegments | src/main/java/ness/quartz/NessQuartzModule.java:77-78 | `n.f` with well-formed `n` and `f` splits into exactly the two segments `[n, f]` |
| StringUtils.DoubledDotDropped | src/main/java/ness/quartz/NessQuartzModule.java:77 | for any key, two adjacent separators split exactly like one |
| StringUtils.StraySeparatorsDropped | src/main/java/ness/quartz/NessQuartzModule.java:77 | `n..f`, `.n.f` and `n.f.` split exactly like `n.f`: empty tokens are dropped |
| QuartzJobBinders.QuartzJobBinder.constructor | src/main/java/ness/quartz/NessQuartzModule.java:98 | a new binder holds the job class and no name, delay, repeat, group or enabled flag, and is not yet registered |
| QuartzJobBinders.QuartzJobBinder.Name | src/main/java/ness/quartz/NessQuartzModule.java:99 | sets the name and nothing else; only allowed before registration |
| QuartzJobBinders.QuartzJobBinder.Delay | src/main/java/ness/quartz/NessQuartzModule.java:102 | sets the delay and nothing else; only allowed before registration |
| QuartzJobBinders.QuartzJobBinder.Repeat | src/main/java/ness/quartz/NessQuartzModule.java:106 | sets the repeat interval and nothing else; only allowed before registration |
| QuartzJobBinders.QuartzJobBinder.Group | src/main/java/ness/quartz/NessQuartzModule.java:110 | sets the group and nothing else; only allowed before registration |
| QuartzJobBinders.QuartzJobBinder.Enabled | src/main/java/ness/quartz/NessQuartzModule.java:114 | sets the enabled flag and nothing else; only allowed before registration |
| QuartzJobBinders.QuartzJobBinder.Register | src/main/java/ness/quartz/NessQuartzModule.java:121 | returns exactly the accumulated fields and consumes the binder |
| NessQuartz.NessQuartzModule.ConfigureJob | src/main/java/ness/quartz/NessQuartzModule.java:88-129 | the module's registrations, errors and warnings, and what escapes, are the old ones with ConfigureJobResult recorded: one registration, or one error, or the escaping failure |
| NessQuartz.NessQuartzModule.ConfigureJobs | src/main/java/ness/quartz/NessQuartzModule.java:73-86 | the loop leaves the module in the state RunKeys gives for the configuration's keys in iteration order, and stops at the first escaping failure |
| JobProperties.OutcomeCases | src/main/java/ness/quartz/NessQuartzModule.java:89-128 | a job registers iff its class is a loadable Job and every configured delay, repeat and enabled value is readable; it is reported as an error iff a class value is given but is unknown or not a Job; an exception escapes iff the class value is missing or a field of a usable class is unreadable |
| JobProperties.RejectionNamesClass | src/main/java/ness/quartz/NessQuartzModule.java:92 | the reported error names the configured class: class-not-found iff it is not loadable, not-a-Job iff it loads but is not a Job |
| JobProperties.RegisteredFields | src/main/java/ness/quartz/NessQuartzModule.java:99-115 | a registered descriptor has the job name; its delay, repeat, group and enabled are set iff their keys are present, each to the value parsed from that key |
| JobProperties.BadTimeSpanEscapes | src/main/java/ness/quartz/NessQuartzModule.java:131-134 | an unparsable delay or repeat of a usable class is not accumulated as an error; it escapes configureJob |
| JobProperties.ReadsOnlyOwnSubset | src/main/java/ness/quartz/NessQuartzModule.java:83 | two configurations that agree on `name.class`, `name.delay`, `name.repeat`, `name.group` and `name.enabled` configure job `name` identically |
| JobProperties.RunKeysAppend | src/main/java/ness/quartz/NessQuartzModule.java:75 | walking two key sequences one after the other is walking their concatenation |
| JobProperties.InsertKey | src/main/java/ness/quartz/NessQuartzModule.java:75-85 | inserting a key that does not end the pass adds exactly that key's own effect at its position and changes nothing else |
| JobProperties.InvalidKeySkipped | src/main/java/ness/quartz/NessQuartzModule.java:77-81 | a key that does not split into two segments adds one warning at its position; it changes no registration, no error, and does not end the pass |
| JobProperties.FieldKeyInert | src/main/java/ness/quartz/NessQuartzModule.java:82-84 | a two-segment key whose second segment is not `class` has no effect on the pass |
| JobProperties.RejectedJobIsolated | src/main/java/ness/quartz/NessQuartzModule.java:123-128 | a job with an unknown or non-Job class adds exactly its one error at its position; all other registrations, warnings and the pass's end are as if its key were absent |
| JobProperties.FailureEndsPass | src/main/java/ness/quartz/NessQuartzModule.java:89-128 | an exception escaping configureJob ends the pass: earlier results stay and no later key is processed |
| JobProperties.EveryClassKeyAccounted | src/main/java/ness/quartz/NessQuartzModule.java:75-85 | registrations and errors are only appended; in a pass that does not fail, the number of registrations plus errors added equals the number of class keys |
| JobProperties.PassFailsIffJobThrows | src/main/java/ness/quartz/NessQuartzModule.java:75-85 | a pass fails exactly when some class key's job lets an exception escape |
| JobProperties.PassResultPerClassKey | src/main/java/ness/quartz/NessQuartzModule.java:82-84 | a pass that does not fail registers exactly the descriptors of its registering class keys and reports exactly the errors of its rejected class keys, one each, in key order |
| JobProperties.ParseDurationFeedsDescriptor | src/main/java/ness/quartz/NessQuartzModule.java:131-134 | the delay and repeat of a registered job are parseDuration's milliseconds for their keys where present, and unset where absent |
| JobProperties.RegisteredComeFromClassKeys | src/main/java/ness/quartz/NessQuartzModule.java:82-84 | every registration added comes from a class key; when the pass does not fail, every class key whose job registers has its descriptor registered |
| Scenarios.RepeatingJobRegistered | src/main/java/ness/quartz/NessQuartzModule.java:101-121 | `n.class`, `n.repeat`, `n.enabled` with a loadable Job and readable values register one descriptor with the repeat and the flag, no delay, no group, and nothing else |
| Scenarios.DoubledSeparatorRegistersTwice | src/main/java/ness/quartz/NessQuartzModule.java:77-83 | keys `a.class` and `a..class` register job `a` twice, each time with a missing-enabled warning |
| Scenarios.LeadingSeparatorEndsPass | src/main/java/ness/quartz/NessQuartzModule.java:90-91 | a lone key `.x.class` fails the class-key state check and ends the pass |

## Left out

- `configure()` (lines 47-61): the Guice bindings for the job factory, the scheduler, the JMX trigger and the configuration objects are dependency-injection wiring. The model starts at `configureJobs` with the job configuration as input.
- `getSchedulerFactory` (lines 63-71) passes the whole configuration to Quartz's `StdSchedulerFactory` and is not modelled.
- `bind(jobClass)` (line 96) is a Guice binding with no effect on the descriptors, so it is not modelled.
- Logging: the two `LOG.warn` calls are kept as a `warnings` list. `LOG.info` at line 120 is left out.
- `Class.forName(...).asSubclass(Job.class)` is a lookup in an abstract class registry. Static initialisers and other linkage errors are not modelled.
- `TimeSpan` parsing and the configuration's `getBoolean` conversion are abstract partial functions in `Environment`. Their code is not part of this model. A duration is an unbounded integer of milliseconds, so the 64-bit `long` range is not modelled.
- `QuartzJobBinder`, `GuiceJobFactory`, `SchedulerProvider`, `AdHocQuartzJob` and `RescheduledQuartzJob` are not part of this model. The binder is modelled only as the fields it accumulates. Its defaults (such as the default group) and the triggers it builds are not modelled.
- Configuration features outside key lookup are not modelled: variable interpolation, list-valued properties, and the empty-key case of `subset`.
- What Guice does with an exception that escapes `configure()` is outside this code. The model returns it as a `Failure` and stops the loop.
- The two `TestRescheduleJob` test classes drive the live scheduler with threads and sleeps. No logic in them is modelled.
