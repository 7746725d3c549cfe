/**
 * The fluent registration builder: one setter per descriptor field and a
 * terminal Register that freezes the fields.  After Register the binder is
 * consumed and no setter may be called.
 */
module QuartzJobBinders {
  import opened Wrappers
  import opened Jobs

  class QuartzJobBinder {
    const jobClass: string
    var name: Option<string>
    var delay: Option<int>
    var repeat: Option<int>
    var group: Option<string>
    var enabled: Option<bool>
    var consumed: bool

    /** The descriptor the binder would register now. */
    function Descriptor(): JobDescriptor
      reads this
    {
      JobDescriptor(jobClass, name, delay, repeat, group, enabled)
    }

    /** bindQuartzJob(binder, jobClass): a builder for `jobClass` with every optional field unset. */
    constructor (jobClass: string)
      ensures Descriptor() == JobDescriptor(jobClass, None, None, None, None, None)
      ensures !consumed
    {
      this.jobClass := jobClass;
      name, delay, repeat, group, enabled := None, None, None, None, None;
      consumed := false;
    }

    method Name(n: string)
      requires !consumed
      modifies this
      ensures Descriptor() == old(Descriptor()).(name := Some(n)) && !consumed
    {
      name := Some(n);
    }

    method Delay(millis: int)
      requires !consumed
      modifies this
      ensures Descriptor() == old(Descriptor()).(delay := Some(millis)) && !consumed
    {
      delay := Some(millis);
    }

    method Repeat(millis: int)
      requires !consumed
      modifies this
      ensures Descriptor() == old(Descriptor()).(repeat := Some(millis)) && !consumed
    {
      repeat := Some(millis);
    }

    method Group(g: string)
      requires !consumed
      modifies this
      ensures Descriptor() == old(Descriptor()).(group := Some(g)) && !consumed
    {
      group := Some(g);
    }

    method Enabled(b: bool)
      requires !consumed
      modifies this
      ensures Descriptor() == old(Descriptor()).(enabled := Some(b)) && !consumed
    {
      enabled := Some(b);
    }

    /** Publishes the accumulated fields and consumes the binder. */
    method Register() returns (d: JobDescriptor)
      requires !consumed
      modifies this
      ensures d == old(Descriptor()) && Descriptor() == old(Descriptor())
      ensures consumed
    {
      d := Descriptor();
      consumed := true;
    }
  }
}
