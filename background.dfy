/**
 * The background-job facade: triggers, the choice of job kind when a job is added to a
 * processor, and the process-wide registry of named processors. The scheduling library
 * itself is not modelled: a processor is an opaque value carrying its id and start
 * options, and adding a job yields the schedule chosen and the job's id.
 */
module Background {
  import opened Wrappers

  /** A point in time, opaque here. */
  datatype DateTime = DateTime(iso: string)

  /** A caller-supplied scheduling object, opaque here. */
  datatype CustomTrigger = CustomTrigger(description: string)

  /** A trigger after its constructor has normalised the arguments. */
  datatype Trigger = Trigger(
    kind: string,
    immediate: bool,
    seconds: int,
    minutes: int,
    hours: int,
    triggerDate: Option<DateTime>,
    custom: Option<CustomTrigger>)

  /** `Trigger(type, seconds, minutes, hours, triggerDate, customAPTrigger)` */
  function MakeTrigger(
    kind: string := "interval",
    seconds: Option<int> := None,
    minutes: Option<int> := None,
    hours: Option<int> := None,
    triggerDate: Option<DateTime> := None,
    custom: Option<CustomTrigger> := None): Trigger
  {
    Trigger(
      kind,
      seconds.None? && minutes.None? && hours.None? && triggerDate.None?,
      seconds.GetOr(0),
      minutes.GetOr(0),
      hours.GetOr(0),
      triggerDate,
      custom)
  }

  /** The kind of job a processor registers: the tagged form of a trigger. */
  datatype Schedule =
    | Custom(trigger: CustomTrigger)
    | Now
    | At(date: Option<DateTime>)
    | Every(seconds: int, minutes: int, hours: int)

  /** The period of an interval job, in seconds: the three parts add up. */
  function PeriodSeconds(s: Schedule): int
    requires s.Every?
  {
    s.seconds + 60 * s.minutes + 3600 * s.hours
  }

  datatype Job = Job(id: string, schedule: Schedule)

  /** Which job kind `addJob` registers for a trigger, in the order the branches are tried. */
  function ChooseSchedule(t: Trigger): Schedule {
    if t.custom.Some? then Custom(t.custom.value)
    else if t.immediate then Now
    else if t.kind == "date" then At(t.triggerDate)
    else Every(t.seconds, t.minutes, t.hours)
  }

  /** `AsyncProcessor.addJob(function, trigger=trigger)`: no trigger means `Trigger()`.
      The job gets the id `jobId` from the scheduler. A date job without a date is
      registered, but then the log line reads the missing date's ISO form and raises. */
  function AddJob(trigger: Option<Trigger>, jobId: string): Result<Job, string> {
    var t := trigger.GetOr(MakeTrigger());
    var schedule := ChooseSchedule(t);
    if schedule.At? && schedule.date.None? then Err("date trigger without a triggerDate")
    else Ok(Job(jobId, schedule))
  }

  /** `immediate` holds exactly when no time argument is given; `type` plays no part. */
  lemma ImmediateIff(kind: string, seconds: Option<int>, minutes: Option<int>, hours: Option<int>,
                     date: Option<DateTime>, custom: Option<CustomTrigger>)
    ensures MakeTrigger(kind, seconds, minutes, hours, date, custom).immediate
            <==> seconds.None? && minutes.None? && hours.None? && date.None?
  {
  }

  /** Omitted durations are stored as 0 and given ones unchanged; the interval period is
      their cumulative sum. */
  lemma StoredDurations(kind: string, seconds: Option<int>, minutes: Option<int>, hours: Option<int>,
                        date: Option<DateTime>)
    ensures var t := MakeTrigger(kind, seconds, minutes, hours, date, None);
      && (seconds.Some? ==> t.seconds == seconds.value) && (seconds.None? ==> t.seconds == 0)
      && (minutes.Some? ==> t.minutes == minutes.value) && (minutes.None? ==> t.minutes == 0)
      && (hours.Some? ==> t.hours == hours.value) && (hours.None? ==> t.hours == 0)
      && (!t.immediate && kind != "date" ==>
            && ChooseSchedule(t).Every?
            && PeriodSeconds(ChooseSchedule(t)) == t.seconds + 60 * t.minutes + 3600 * t.hours)
  {
  }

  /** The interval example of the `Trigger` documentation: 5 seconds, 3 minutes and 2 hours
      fire every 2 h 3 min 5 s, cumulatively. */
  lemma DocstringInterval(jobId: string)
    ensures AddJob(Some(MakeTrigger("interval", Some(5), Some(3), Some(2))), jobId) == Ok(Job(jobId, Every(5, 3, 2)))
    ensures PeriodSeconds(Every(5, 3, 2)) == 7385
  {
  }

  /** Adding a job without a trigger is adding it with `Trigger()`, which runs it at once. */
  lemma AddJobDefault(jobId: string)
    ensures AddJob(None, jobId) == AddJob(Some(MakeTrigger()), jobId) == Ok(Job(jobId, Now))
  {
  }

  /** The dispatch order in terms of the constructor's arguments: a custom trigger wins even
      over an immediate one; then immediate; then `type == "date"`; then interval. */
  lemma AddJobOrder(kind: string, seconds: Option<int>, minutes: Option<int>, hours: Option<int>,
                    date: Option<DateTime>, custom: Option<CustomTrigger>, jobId: string)
    ensures var r := AddJob(Some(MakeTrigger(kind, seconds, minutes, hours, date, custom)), jobId);
      var timed := seconds.Some? || minutes.Some? || hours.Some? || date.Some?;
      && (custom.Some? ==> r == Ok(Job(jobId, Custom(custom.value))))
      && (custom.None? && !timed ==> r == Ok(Job(jobId, Now)))
      && (custom.None? && timed && kind == "date" && date.Some? ==> r == Ok(Job(jobId, At(date))))
      && (custom.None? && timed && kind == "date" && date.None? ==> r.Err?)
      && (custom.None? && timed && kind != "date" ==>
            r == Ok(Job(jobId, Every(seconds.GetOr(0), minutes.GetOr(0), hours.GetOr(0)))))
  {
  }

  // ------------------------------------------------------------- registry

  /** A processor: its id (a fresh hex uuid) and the options it was started with. */
  datatype Processor = Processor(id: string, paused: bool, logging: bool)

  /** A registry entry. */
  datatype ProcessorRecord = ProcessorRecord(processor: Processor, name: string, source: string, created: string)

  const DuplicateNameMessage := "ERROR: A thread with that name already exists. Name must be unique."
  const DefaultExistsMessage := "ERROR: Default thread already exists."
  const DefaultName := "default"

  ghost predicate Distinct(s: seq<string>) {
    forall i, j :: 0 <= i < j < |s| ==> s[i] != s[j]
  }

  /** `s` with its first occurrence of `x` taken out. */
  function Without(s: seq<string>, x: string): seq<string> {
    if s == [] then []
    else if s[0] == x then s[1..]
    else [s[0]] + Without(s[1..], x)
  }

  lemma DistinctTail(s: seq<string>)
    requires s != [] && Distinct(s)
    ensures Distinct(s[1..]) && s[0] !in s[1..]
  {
    assert Distinct(s[1..]) by {
      forall i, j | 0 <= i < j < |s[1..]| ensures s[1..][i] != s[1..][j] {
        assert s[1..][i] == s[i + 1] && s[1..][j] == s[j + 1];
      }
    }
    forall j | 0 <= j < |s[1..]| ensures s[1..][j] != s[0] {
      assert s[1..][j] == s[j + 1];
    }
  }

  lemma DistinctCons(x: string, s: seq<string>)
    requires Distinct(s) && x !in s
    ensures Distinct([x] + s)
  {
    var r := [x] + s;
    forall i, j | 0 <= i < j < |r| ensures r[i] != r[j] {
      if i == 0 {
        assert r[j] == s[j - 1];
      } else {
        assert r[i] == s[i - 1] && r[j] == s[j - 1];
      }
    }
  }

  /** Taking a name out of a list of distinct names keeps exactly the others, still distinct. */
  lemma {:induction false} WithoutMembers(s: seq<string>, x: string)
    requires Distinct(s)
    ensures Distinct(Without(s, x))
    ensures forall n :: n in Without(s, x) <==> n in s && n != x
  {
    if s != [] {
      DistinctTail(s);
      if s[0] != x {
        WithoutMembers(s[1..], x);
        DistinctCons(s[0], Without(s[1..], x));
      }
    }
  }

  /** Taking out the name at position `i` drops exactly that position, the order of the rest kept. */
  lemma {:induction false} WithoutAt(s: seq<string>, i: nat)
    requires Distinct(s) && i < |s|
    ensures Without(s, s[i]) == s[..i] + s[i + 1..]
  {
    if i == 0 {
      assert s[..0] + s[1..] == s[1..];
    } else {
      DistinctTail(s);
      assert s[0] != s[i];
      WithoutAt(s[1..], i - 1);
      assert s[1..][i - 1] == s[i];
      assert [s[0]] + (s[1..][..i - 1] + s[1..][i..]) == s[..i] + s[i + 1..];
    }
  }

  /**
   * `ThreadManager`: processors by name, in insertion order, and the default processor.
   * `data` is the name-to-record dictionary; `names` is the order of its keys.
   */
  class ThreadManager {
    var data: map<string, ProcessorRecord>
    var names: seq<string>
    var defaultProcessor: Option<Processor>

    ghost predicate Valid()
      reads this
    {
      && Distinct(names)
      && (forall n :: n in data <==> n in names)
      && (forall n :: n in data ==> data[n].name == n)
    }

    constructor ()
      ensures Valid()
      ensures data == map[] && names == [] && defaultProcessor == None
    {
      data, names, defaultProcessor := map[], [], None;
    }

    /** `list()`: every registered name once, in registration order. */
    function List(): (r: seq<string>)
      requires Valid()
      reads this
      ensures Distinct(r) && forall n :: n in r <==> n in data
    {
      names
    }

    /** `info(name)`: the record registered under `name`, if any. */
    function Info(name: string): (r: Option<ProcessorRecord>)
      requires Valid()
      reads this
      ensures r.Some? <==> name in List()
      ensures r.Some? ==> r.value.name == name && r.value == data[name]
    {
      if name in data then Some(data[name]) else None
    }

    /** `getProcessorWithName(name)` */
    function GetProcessorWithName(name: string): (r: Option<Processor>)
      requires Valid()
      reads this
      ensures r.Some? <==> name in List()
      ensures r.Some? ==> r.value == data[name].processor
    {
      if name in data then Some(data[name].processor) else None
    }

    /** `new(name, source, paused, logging)`: `id` is the new processor's uuid and `created`
        the current time; a taken name yields the error message and changes nothing. */
    method New(name: string, source: string, paused: bool, logging: bool, id: string, created: string)
      returns (r: Result<Processor, string>)
      requires Valid()
      modifies this
      ensures Valid()
      ensures name in old(data) ==>
        r == Err(DuplicateNameMessage) && data == old(data) && names == old(names)
      ensures name !in old(data) ==>
        && r == Ok(Processor(id, paused, logging))
        && data == old(data)[name := ProcessorRecord(r.value, name, source, created)]
        && names == old(names) + [name]
      ensures defaultProcessor == old(defaultProcessor)
    {
      if name in data {
        return Err(DuplicateNameMessage);
      }
      var processor := Processor(id, paused, logging);
      data := data[name := ProcessorRecord(processor, name, source, created)];
      names := names + [name];
      r := Ok(processor);
    }

    /** `initDefault()`: registers "default" from "main.py" and makes it the default;
        raises when "default" is taken. */
    method InitDefault(id: string, created: string) returns (r: Result<Processor, string>)
      requires Valid()
      modifies this
      ensures Valid()
      ensures DefaultName in old(data) ==>
        r == Err(DefaultExistsMessage) && data == old(data) && names == old(names)
        && defaultProcessor == old(defaultProcessor)
      ensures DefaultName !in old(data) ==>
        && r == Ok(Processor(id, false, true))
        && data == old(data)[DefaultName := ProcessorRecord(r.value, DefaultName, "main.py", created)]
        && names == old(names) + [DefaultName]
        && defaultProcessor == Some(r.value)
    {
      if DefaultName in data {
        return Err(DefaultExistsMessage);
      }
      r := New(DefaultName, "main.py", false, true, id, created);
      defaultProcessor := Some(r.value);
    }

    /** `getProcessorWithID(id)`: the first processor, in name order, whose id matches. */
    method GetProcessorWithID(id: string) returns (r: Option<Processor>)
      requires Valid()
      ensures r.Some? ==>
        exists i :: 0 <= i < |names| && data[names[i]].processor == r.value && r.value.id == id
          && forall j :: 0 <= j < i ==> data[names[j]].processor.id != id
      ensures r.None? <==> forall n :: n in data ==> data[n].processor.id != id
    {
      var ns := List();
      for i := 0 to |ns|
        invariant forall j :: 0 <= j < i ==> data[ns[j]].processor.id != id
      {
        if data[ns[i]].processor.id == id {
          return Some(data[ns[i]].processor);
        }
      }
      return None;
    }

    /** `closeThread(name)`: shuts down and removes the entry; the default pointer is cleared
        exactly when the name is "default". An absent name changes nothing. */
    method CloseThread(name: string) returns (closed: bool)
      requires Valid()
      modifies this
      ensures Valid()
      ensures closed <==> name in old(data)
      ensures !closed ==> data == old(data) && names == old(names) && defaultProcessor == old(defaultProcessor)
      ensures closed ==>
        && data == old(data) - {name}
        && names == Without(old(names), name)
        && defaultProcessor == if name == DefaultName then None else old(defaultProcessor)
    {
      var processor := GetProcessorWithName(name);
      if processor.None? {
        return false;
      }
      WithoutMembers(names, name);
      data := data - {name};
      names := Without(names, name);
      if name == DefaultName {
        defaultProcessor := None;
      }
      closed := true;
    }

    /** `shutdown()`: closes every entry in name order and clears the default; calling it on an
        empty registry gives the same state and result again. */
    method Shutdown() returns (r: bool)
      requires Valid()
      modifies this
      ensures Valid()
      ensures data == map[] && names == [] && defaultProcessor == None && r
    {
      var ns := List();
      var i := 0;
      while i < |ns|
        invariant Valid()
        invariant 0 <= i <= |ns|
        invariant names == ns[i..]
      {
        assert names[0] == ns[i];
        var closed := CloseThread(ns[i]);
        WithoutAt(ns[i..], 0);
        assert ns[i..][1..] == ns[i + 1..];
        i := i + 1;
      }
      assert forall n :: n !in data;
      assert data == map[];
      defaultProcessor := None;
      r := true;
    }
  }

  /** Two processors named "default": the second fails and the first stays registered;
      closing "default" clears the default pointer; shutting down empties the registry. */
  method DefaultScenario(id1: string, id2: string, t: string)
  {
    var tm := new ThreadManager();
    var first := tm.InitDefault(id1, t);
    assert first == Ok(Processor(id1, false, true));
    var second := tm.New(DefaultName, "main.py", false, true, id2, t);
    assert second == Err(DuplicateNameMessage);
    assert tm.GetProcessorWithName(DefaultName) == Some(first.value);
    var closed := tm.CloseThread(DefaultName);
    assert closed && tm.defaultProcessor == None;
    var done := tm.Shutdown();
    assert tm.List() == [];
  }
}
