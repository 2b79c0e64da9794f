/** The converter of the measurement cutter: it copies the selected channels of a measurement
    inside a time window to a new measurement
    (app/meas_cutter/src/measurement_converter.cpp, measurement_importer.cpp,
    measurement_exporter.cpp). */
module Cutter {
  import opened Strings
  import opened Ordering
  import opened Layout
  import opened Recording
  import opened DirFacts
  import opened Queries
  import opened NameApi
  import SimTime

  datatype Scale = NoScale | Seconds | Milliseconds | Microseconds

  datatype Base = NoBase | FromStart | FromEnd | Absolute

  datatype Limit = Unset | Limit(time: real, scale: Scale, base: Base)

  datatype Trim = Trim(valid: bool, start: Limit, end: Limit)

  datatype Operation = NoOperation | Include | Exclude

  /** A job. `mentioned` are the channels it names, those that its regular expressions match
      included. */
  datatype Job = Job(trim: Trim, operation: Operation, mentioned: seq<Str>, namesBase: bool, namesSize: bool)

  // ---------- The window ----------

  function ConversionFactor(scale: Scale): real {
    match scale
    case Seconds => 1000000.0
    case Milliseconds => 1000.0
    case _ => 1.0
  }

  /** A time of the job in microseconds. */
  function Offset(time: real, scale: Scale): int { SimTime.Truncated(time * ConversionFactor(scale)) }

  /** One end of the window; `otherwise` is the same end of the measurement. */
  function Requested(limit: Limit, otherwise: int, originalStart: int, originalEnd: int): int {
    match limit
    case Unset => otherwise
    case Limit(time, scale, base) =>
      var t := Offset(time, scale);
      match base
      case FromStart => originalStart + t
      case FromEnd => originalEnd - t
      case Absolute => t
      case NoBase => otherwise
  }

  lemma WholeMicroseconds(n: int)
    ensures Offset(n as real, Microseconds) == n
  {
    assert n as real * 1.0 == n as real;
    assert -(n as real) == (-n) as real;
  }

  /** Times are converted to microseconds; what is less than one is cut off. */
  lemma Conversions(n: int)
    ensures Offset(n as real, Seconds) == n * 1000000 && Offset(n as real, Milliseconds) == n * 1000
    ensures Offset(n as real, Microseconds) == n && Offset(n as real, NoScale) == n
    ensures Offset(n as real / 1000000.0, Seconds) == n && Offset(n as real / 1000.0, Milliseconds) == n
    ensures Offset(1.9999999, Seconds) == 1999999 && Offset(-1.9999999, Seconds) == -1999999
  {
    assert n as real * 1000000.0 == (n * 1000000) as real;
    assert n as real * 1000.0 == (n * 1000) as real;
    WholeMicroseconds(n);
    WholeMicroseconds(n * 1000);
    WholeMicroseconds(n * 1000000);
    assert n as real / 1000000.0 * 1000000.0 == n as real && n as real / 1000.0 * 1000.0 == n as real;
  }

  /** A limit that is not set, or has no base, leaves its end of the measurement. */
  lemma NoLimit(time: real, scale: Scale, otherwise: int, originalStart: int, originalEnd: int)
    ensures Requested(Unset, otherwise, originalStart, originalEnd) == otherwise
    ensures Requested(Limit(time, scale, NoBase), otherwise, originalStart, originalEnd) == otherwise
  {
  }

  /** The same point of a measurement, counted from its start, from its end and from zero. */
  lemma BasesAgree(point: int, otherwise: int, originalStart: int, originalEnd: int)
    ensures Requested(Limit((point - originalStart) as real, Microseconds, FromStart), otherwise, originalStart, originalEnd) == point
    ensures Requested(Limit((originalEnd - point) as real, Microseconds, FromEnd), otherwise, originalStart, originalEnd) == point
    ensures Requested(Limit(point as real, Microseconds, Absolute), otherwise, originalStart, originalEnd) == point
  {
    WholeMicroseconds(point - originalStart);
    WholeMicroseconds(originalEnd - point);
    WholeMicroseconds(point);
    hide Offset;
  }

  /** The requested window lies in the measurement. */
  predicate Accepted(trim: Trim, originalStart: int, originalEnd: int) {
    trim.valid && originalStart <= Requested(trim.start, originalStart, originalStart, originalEnd)
                  <= Requested(trim.end, originalEnd, originalStart, originalEnd) <= originalEnd
  }

  /** A trimming by `x` from the start and `y` from the end is accepted exactly if neither is
      negative and together they are no longer than the measurement. */
  lemma TrimmedAtBothEnds(x: real, a: Scale, y: real, b: Scale, originalStart: int, originalEnd: int)
    ensures Accepted(Trim(true, Limit(x, a, FromStart), Limit(y, b, FromEnd)), originalStart, originalEnd)
       <==> 0 <= Offset(x, a) && 0 <= Offset(y, b) && Offset(x, a) + Offset(y, b) <= originalEnd - originalStart
  {
    hide Offset;
  }

  function Starts(m: Measurement, names: set<Str>): set<int> { set n | n in names :: NameMin(m, n) }

  function Ends(m: Measurement, names: set<Str>): set<int> { set n | n in names :: NameMax(m, n) }

  /** The span of a measurement: from the smallest to the largest timestamp any of its names
      reports. */
  predicate IsSpan(m: Measurement, start: int, end: int) {
    start == MinOr(Starts(m, ChannelNames(m)), 0) && end == MaxOr(Ends(m, ChannelNames(m)), 0)
  }

  lemma NoSpan(m: Measurement)
    ensures Starts(m, {}) == {} && Ends(m, {}) == {}
  {
  }

  lemma SomeSpan(m: Measurement, names: set<Str>)
    requires names != {}
    ensures Starts(m, names) != {} && Ends(m, names) != {}
    ensures MinOr(Starts(m, names), LLONG_MAX) == MinOr(Starts(m, names), 0)
    ensures MaxOr(Ends(m, names), LLONG_MIN) == MaxOr(Ends(m, names), 0)
  {
    hide NameMin, NameMax;
    var n := Least(names);
    assert NameMin(m, n) in Starts(m, names) && NameMax(m, n) in Ends(m, names);
    hide Starts, Ends;
  }

  lemma OneMoreName(m: Measurement, names: set<Str>, name: Str)
    ensures Starts(m, names + {name}) == Starts(m, names) + {NameMin(m, name)}
    ensures Ends(m, names + {name}) == Ends(m, names) + {NameMax(m, name)}
  {
    hide NameMin, NameMax;
  }

  lemma ReportedInRange(m: Measurement, name: Str)
    requires Timed(m)
    ensures LLONG_MIN < NameMax(m, name) && NameMin(m, name) < LLONG_MAX
  {
    NameRecsTimed(m, name);
    hide NameRecs, Timed;
  }

  lemma StartsBelow(m: Measurement, names: set<Str>)
    requires Timed(m)
    ensures forall t | t in Starts(m, names) :: t <= LLONG_MAX
    ensures forall t | t in Ends(m, names) :: t >= LLONG_MIN
  {
    forall n ensures LLONG_MIN < NameMax(m, n) && NameMin(m, n) < LLONG_MAX {
      ReportedInRange(m, n);
    }
    hide NameMin, NameMax, Timed;
  }

  lemma OneTime(t: int)
    ensures MinOr({t}, LLONG_MAX) == t && MaxOr({t}, LLONG_MIN) == t
  {
  }

  lemma SpanMore(m: Measurement, names: set<Str>, name: Str)
    requires Timed(m)
    ensures (var x, y := MinOr(Starts(m, names), LLONG_MAX), NameMin(m, name);
             (if y < x then y else x) == MinOr(Starts(m, names + {name}), LLONG_MAX))
    ensures (var x, y := MaxOr(Ends(m, names), LLONG_MIN), NameMax(m, name);
             (if y > x then y else x) == MaxOr(Ends(m, names + {name}), LLONG_MIN))
  {
    OneMoreName(m, names, name);
    OneTime(NameMin(m, name));
    OneTime(NameMax(m, name));
    StartsBelow(m, names + {name});
    hide NameMin, NameMax, MinOr, MaxOr, Timed, Starts, Ends;
    MinOfUnion(Starts(m, names), {NameMin(m, name)}, MinOr(Starts(m, names), LLONG_MAX), NameMin(m, name));
    MaxOfUnion(Ends(m, names), {NameMax(m, name)}, MaxOr(Ends(m, names), LLONG_MIN), NameMax(m, name));
  }

  method GetOriginalStartFinishTimestamps(m: Measurement) returns (first: int, second: int)
    requires Timed(m)
    ensures IsSpan(m, first, second)
  {
    hide NameMin, NameMax, MinOr, MaxOr, Starts, Ends;
    var todo := ChannelNames(m);
    if todo == {} {
      NoSpan(m);
      return 0, 0;
    }
    first, second := LLONG_MAX, LLONG_MIN;
    ghost var done: set<Str> := {};
    NoSpan(m);
    while todo != {}
      invariant todo <= ChannelNames(m) && done == ChannelNames(m) - todo
      invariant first == MinOr(Starts(m, done), LLONG_MAX) && second == MaxOr(Ends(m, done), LLONG_MIN)
      decreases |todo|
    {
      var name := Least(todo);
      var start := NameApi.GetMinTimestamp(m, name);
      var end := NameApi.GetMaxTimestamp(m, name);
      SpanMore(m, done, name);
      first := if start < first then start else first;
      second := if end > second then end else second;
      done := done + {name};
      todo := todo - {name};
    }
    assert done == ChannelNames(m);
    SomeSpan(m, done);
  }

  /** The span is in order and covers every entry. */
  lemma SpanIsWhole(m: Measurement, start: int, end: int)
    requires Timed(m) && IsSpan(m, start, end)
    ensures start <= end
    ensures forall n, t | n in ChannelNames(m) && t in NameRecs(m, n) :: start <= t <= end
  {
    hide NameMin, NameMax, NameRecs, MinOr, MaxOr, ChannelNames;
    forall n ensures NameMin(m, n) <= NameMax(m, n) {
      SpanCovers(m, n);
    }
    forall n | n in ChannelNames(m) ensures start <= NameMin(m, n) <= NameMax(m, n) <= end {
      assert NameMin(m, n) in Starts(m, ChannelNames(m)) && NameMax(m, n) in Ends(m, ChannelNames(m));
    }
    if ChannelNames(m) == {} {
      NoSpan(m);
    } else {
      var n := Least(ChannelNames(m));
    }
    forall n, t | n in ChannelNames(m) && t in NameRecs(m, n) ensures start <= t <= end {
      SpanCovers(m, n);
    }
  }

  /** Each end of the span is reported for some name. */
  lemma SpanIsReported(m: Measurement, start: int, end: int)
    requires IsSpan(m, start, end) && ChannelNames(m) != {}
    ensures exists n :: n in ChannelNames(m) && NameMin(m, n) == start
    ensures exists n :: n in ChannelNames(m) && NameMax(m, n) == end
  {
    hide NameMin, NameMax, ChannelNames;
    var n := Least(ChannelNames(m));
    assert NameMin(m, n) in Starts(m, ChannelNames(m)) && NameMax(m, n) in Ends(m, ChannelNames(m));
  }

  // ---------- Checking the job ----------

  /** The job's channel selection makes sense for the measurement. */
  predicate SelectionValid(job: Job, names: set<Str>) {
    && (exists c :: c in job.mentioned && c in names)
    && (job.operation.Exclude? ==> exists n :: n in names && n !in job.mentioned)
  }

  /** A valid selection selects something, and one that selects nothing of a measurement is not
      valid, whether the mentioned channels are included or excluded. */
  lemma ValidLeavesSome(job: Job, names: set<Str>)
    ensures job.operation.Include? ==> (SelectionValid(job, names) <==> exists n :: n in names && n in job.mentioned)
    ensures job.operation.Exclude? ==>
              (SelectionValid(job, names) <==> (exists n :: n in names && n in job.mentioned) && exists n :: n in names && n !in job.mentioned)
  {
  }

  // ---------- Copying ----------

  /** What the importer reads of every entry. */
  predicate Readable(m: Measurement) { forall c | c in m :: forall t | t in m[c] :: m[c][t].data.Some? }

  /** A call to the exporter. */
  datatype Call = CreateChannel(name: Str, info: Info) | SetData(entry: WriteEntry)

  datatype Selection = Selection(valid: bool, operation: Operation, mentioned: seq<Str>)

  predicate Selected(s: Selection, name: Str) {
    s.valid ==> (s.operation.Exclude? ==> name !in s.mentioned) && (s.operation.Include? ==> name in s.mentioned)
  }

  const PROTO: Str := "proto"

  /** The importer keeps of an encoding only whether it is `proto`. */
  function ExportedInfo(infos: map<Str, Info>, name: Str): Info {
    if name in infos then infos[name].(encoding := if infos[name].encoding == PROTO then PROTO else []) else Info([], [], [])
  }

  function EntryFor(name: Str, r: Rec): WriteEntry {
    WriteEntry(Channel(name, 0), if r.data.Some? then r.data.value else [], r.snd, r.rcv, r.sender, r.clock)
  }

  /** The records of a name inside the window. */
  function Windowed(recs: RecMap, start: int, end: int): RecMap { map t | t in recs && start <= t <= end :: recs[t] }

  predicate InDomain(recs: RecMap, times: seq<int>) { forall i | 0 <= i < |times| :: times[i] in recs }

  function EntriesAt(name: Str, recs: RecMap, times: seq<int>): seq<Call>
    requires InDomain(recs, times)
  {
    seq(|times|, i requires 0 <= i < |times| => SetData(EntryFor(name, recs[times[i]])))
  }

  lemma EntriesOneMore(name: Str, recs: RecMap, times: seq<int>, lower: nat, k: nat)
    requires InDomain(recs, times) && lower <= k < |times|
    ensures InDomain(recs, times[lower..k]) && InDomain(recs, times[lower..k + 1])
    ensures EntriesAt(name, recs, times[lower..k + 1]) == EntriesAt(name, recs, times[lower..k]) + [SetData(EntryFor(name, recs[times[k]]))]
  {
    hide EntryFor;
  }

  lemma TimesInDomain(recs: RecMap, start: int, end: int)
    ensures InDomain(recs, Times(recs.Keys)) && InDomain(recs, Times(Windowed(recs, start, end).Keys))
  {
    hide Times;
    var all, window := Times(recs.Keys), Times(Windowed(recs, start, end).Keys);
    assert forall i | 0 <= i < |all| :: all[i] in all;
    assert forall i | 0 <= i < |window| :: window[i] in window;
  }

  function ChannelCalls(m: Measurement, infos: map<Str, Info>, name: Str, start: int, end: int): seq<Call> {
    var recs := NameRecs(m, name);
    TimesInDomain(recs, start, end);
    [CreateChannel(name, ExportedInfo(infos, name))] + EntriesAt(name, recs, Times(Windowed(recs, start, end).Keys))
  }

  function Cut(m: Measurement, infos: map<Str, Info>, s: Selection, start: int, end: int, names: seq<Str>): seq<Call> {
    if names == [] then []
    else
      var n := |names| - 1;
      Cut(m, infos, s, start, end, names[..n]) + if Selected(s, names[n]) then ChannelCalls(m, infos, names[n], start, end) else []
  }

  predicate Creates(calls: seq<Call>, name: Str) { exists i :: 0 <= i < |calls| && calls[i].CreateChannel? && calls[i].name == name }

  lemma CreatesAppend(a: seq<Call>, b: seq<Call>, name: Str)
    ensures Creates(a + b, name) <==> Creates(a, name) || Creates(b, name)
  {
    var all := a + b;
    assert forall i | 0 <= i < |a| :: all[i] == a[i];
    assert forall i | 0 <= i < |b| :: all[|a| + i] == b[i];
    if i :| 0 <= i < |all| && all[i].CreateChannel? && all[i].name == name {
      assert i >= |a| ==> all[i] == b[i - |a|];
    }
  }

  lemma ChannelCreates(m: Measurement, infos: map<Str, Info>, name: Str, start: int, end: int, n: Str)
    ensures Creates(ChannelCalls(m, infos, name, start, end), n) <==> n == name
  {
    hide NameRecs, Times, Windowed, ExportedInfo, EntryFor;
    var calls := ChannelCalls(m, infos, name, start, end);
    assert calls[0].CreateChannel? && calls[0].name == name;
  }

  /** The channels that are exported: with a valid selection those mentioned to be included, or
      those not mentioned to be excluded; without one, all. */
  lemma {:induction false} CutCreates(m: Measurement, infos: map<Str, Info>, s: Selection, start: int, end: int, names: seq<Str>, n: Str)
    ensures s.valid && s.operation.Include? ==>
              (Creates(Cut(m, infos, s, start, end, names), n) <==> n in names && n in s.mentioned)
    ensures s.valid && s.operation.Exclude? ==>
              (Creates(Cut(m, infos, s, start, end, names), n) <==> n in names && n !in s.mentioned)
    ensures !s.valid || s.operation.NoOperation? ==>
              (Creates(Cut(m, infos, s, start, end, names), n) <==> n in names)
  {
    if names != [] {
      var k := |names| - 1;
      CutCreates(m, infos, s, start, end, names[..k], n);
      var more := if Selected(s, names[k]) then ChannelCalls(m, infos, names[k], start, end) else [];
      CreatesAppend(Cut(m, infos, s, start, end, names[..k]), more, n);
      ChannelCreates(m, infos, names[k], start, end, n);
      assert names == names[..k] + [names[k]];
      hide ChannelCalls;
    }
  }

  lemma NothingCut(m: Measurement, infos: map<Str, Info>, s: Selection, start: int, end: int)
    ensures Cut(m, infos, s, start, end, []) == []
  {
  }

  lemma CutOneMore(m: Measurement, infos: map<Str, Info>, s: Selection, start: int, end: int, names: seq<Str>, i: nat)
    requires i < |names|
    ensures Cut(m, infos, s, start, end, names[..i + 1])
         == Cut(m, infos, s, start, end, names[..i]) + if Selected(s, names[i]) then ChannelCalls(m, infos, names[i], start, end) else []
  {
    assert names[..i + 1][..i] == names[..i];
  }

  lemma FirstIsIn(s: seq<int>)
    ensures s != [] ==> s[0] in s
  {
  }

  /** Two increasing sequences with the same elements are equal. */
  lemma {:induction false} IncreasingUnique(a: seq<int>, b: seq<int>)
    requires Increasing(a) && Increasing(b) && forall t :: t in a <==> t in b
    ensures a == b
  {
    if a == [] {
      FirstIsIn(b);
    } else {
      assert a[0] in b && b != [] && b[0] in a;
      assert a[0] == b[0];
      forall t ensures t in a[1..] <==> t in b[1..] {
        assert t in a[1..] <==> t in a && t != a[0];
        assert t in b[1..] <==> t in b && t != b[0];
      }
      IncreasingUnique(a[1..], b[1..]);
    }
  }

  lemma StretchIs(times: seq<int>, window: seq<int>, start: int, end: int)
    requires Increasing(times) && Increasing(window) && start <= end
    requires forall t :: t in window <==> t in times && start <= t <= end
    ensures LowerBound(times, start) <= UpperBound(times, end)
    ensures times[LowerBound(times, start)..UpperBound(times, end)] == window
  {
    StretchIsRange(times, start, end);
    IncreasingUnique(times[LowerBound(times, start)..UpperBound(times, end)], window);
  }

  /** The stretch between the bounds is the window's timestamps. */
  lemma StretchIsWindow(recs: RecMap, start: int, end: int)
    requires start <= end
    ensures (var times := Times(recs.Keys);
             && LowerBound(times, start) <= UpperBound(times, end)
             && times[LowerBound(times, start)..UpperBound(times, end)] == Times(Windowed(recs, start, end).Keys))
  {
    var times, window := Times(recs.Keys), Times(Windowed(recs, start, end).Keys);
    assert forall t :: t in Windowed(recs, start, end).Keys <==> t in recs.Keys && start <= t <= end;
    hide Times, LowerBound, UpperBound, Windowed;
    StretchIs(times, window, start, end);
  }

  lemma AtDomain(recs: RecMap, times: seq<int>, k: nat)
    requires InDomain(recs, times) && k < |times|
    ensures times[k] in recs
  {
  }

  lemma NoEntries(name: Str, recs: RecMap)
    ensures InDomain(recs, []) && EntriesAt(name, recs, []) == []
  {
  }

  /** The entries between two bounds, one by one. */
  method ExportEntries(name: Str, recs: RecMap, times: seq<int>, lower: nat, upper: nat) returns (calls: seq<Call>)
    requires InDomain(recs, times) && lower <= upper <= |times|
    ensures InDomain(recs, times[lower..upper]) && calls == EntriesAt(name, recs, times[lower..upper])
  {
    hide EntryFor, EntriesAt, InDomain;
    calls := [];
    NoEntries(name, recs);
    assert times[lower..lower] == [];
    for k := lower to upper
      invariant InDomain(recs, times[lower..k])
      invariant calls == EntriesAt(name, recs, times[lower..k])
    {
      EntriesOneMore(name, recs, times, lower, k);
      AtDomain(recs, times, k);
      calls := calls + [SetData(EntryFor(name, recs[times[k]]))];
    }
  }

  /** The body of the loop over the channels. */
  method ExportChannel(m: Measurement, infos: map<Str, Info>, name: Str, start: int, end: int) returns (calls: seq<Call>)
    requires Readable(m) && start <= end
    ensures calls == ChannelCalls(m, infos, name, start, end)
  {
    hide Times, LowerBound, UpperBound, EntryFor, NameRecs, ExportedInfo, EntriesAt, InDomain, Windowed, Readable;
    var recs := NameApi.GetEntriesInfo(m, name);
    var times := Times(recs.Keys);
    StretchIsWindow(recs, start, end);
    TimesInDomain(recs, start, end);
    var exported := ExportEntries(name, recs, times, LowerBound(times, start), UpperBound(times, end));
    calls := [CreateChannel(name, ExportedInfo(infos, name))] + exported;
  }

  // ---------- The converter ----------

  class MeasurementConverter {
    var isChannelManipulationValid: bool
    var originalStart: int
    var originalEnd: int
    var calculatedStart: int
    var calculatedEnd: int

    constructor ()
      ensures isChannelManipulationValid
      ensures originalStart == calculatedStart == LLONG_MIN && originalEnd == calculatedEnd == LLONG_MAX
    {
      isChannelManipulationValid := true;
      originalStart, originalEnd, calculatedStart, calculatedEnd := LLONG_MIN, LLONG_MAX, LLONG_MIN, LLONG_MAX;
    }

    /** `getCalculatedStartEndTimestamps` */
    method GetCalculatedStartEndTimestamps(job: Job) returns (first: int, second: int)
      ensures first == if job.trim.valid then Requested(job.trim.start, originalStart, originalStart, originalEnd) else originalStart
      ensures second == if job.trim.valid then Requested(job.trim.end, originalEnd, originalStart, originalEnd) else originalEnd
    {
      hide Offset;
      first, second := originalStart, originalEnd;
      if job.trim.valid {
        if job.trim.start.Limit? {
          var t := Offset(job.trim.start.time, job.trim.start.scale);
          match job.trim.start.base {
            case FromStart => first := originalStart + t;
            case FromEnd => first := originalEnd - t;
            case Absolute => first := t;
            case NoBase =>
          }
        }
        if job.trim.end.Limit? {
          var t := Offset(job.trim.end.time, job.trim.end.scale);
          match job.trim.end.base {
            case FromStart => second := originalStart + t;
            case FromEnd => second := originalEnd - t;
            case Absolute => second := t;
            case NoBase =>
          }
        }
      }
    }

    method CheckChannels(m: Measurement, job: Job)
      modifies this`isChannelManipulationValid
      ensures isChannelManipulationValid <==> old(isChannelManipulationValid) && SelectionValid(job, ChannelNames(m))
    {
      hide ChannelNames;
      var names := ChannelNames(m);
      var atLeastOneChannelInMeasurement := exists c :: c in job.mentioned && c in names;
      if job.mentioned == [] || !atLeastOneChannelInMeasurement {
        isChannelManipulationValid := false;
      }
      if job.operation.Exclude? && !(exists n :: n in names && n !in job.mentioned) {
        isChannelManipulationValid := false;
      }
    }

    method CheckTrimming(job: Job) returns (isTrimmingValid: bool)
      requires originalStart <= originalEnd
      modifies this`calculatedStart, this`calculatedEnd
      ensures isTrimmingValid <==> Accepted(job.trim, originalStart, originalEnd)
      ensures (calculatedStart, calculatedEnd)
           == if isTrimmingValid
              then (Requested(job.trim.start, originalStart, originalStart, originalEnd),
                    Requested(job.trim.end, originalEnd, originalStart, originalEnd))
              else (originalStart, originalEnd)
    {
      hide Requested;
      isTrimmingValid := true;
      calculatedStart, calculatedEnd := GetCalculatedStartEndTimestamps(job);
      if !job.trim.valid {
        isTrimmingValid := false;
      }
      if calculatedStart < originalStart {
        isTrimmingValid := false;
      }
      if calculatedStart > originalEnd {
        isTrimmingValid := false;
      }
      if calculatedEnd > originalEnd {
        isTrimmingValid := false;
      }
      if calculatedEnd < originalStart {
        isTrimmingValid := false;
      }
      if calculatedEnd < calculatedStart {
        isTrimmingValid := false;
      }
      if !isTrimmingValid {
        calculatedStart, calculatedEnd := originalStart, originalEnd;
      }
    }

    /** `isConfigurationValid`, for a measurement and directories that could be opened. The
        window always lies in the measurement; a trimming that would not is replaced by the
        whole span. */
    method IsConfigurationValid(m: Measurement, job: Job) returns (valid: bool)
      requires Timed(m)
      modifies this
      ensures IsSpan(m, originalStart, originalEnd)
      ensures originalStart <= calculatedStart <= calculatedEnd <= originalEnd
      ensures (calculatedStart, calculatedEnd)
           == if Accepted(job.trim, originalStart, originalEnd)
              then (Requested(job.trim.start, originalStart, originalStart, originalEnd),
                    Requested(job.trim.end, originalEnd, originalStart, originalEnd))
              else (originalStart, originalEnd)
      ensures isChannelManipulationValid <==> old(isChannelManipulationValid) && SelectionValid(job, ChannelNames(m))
      ensures valid <==>
                || (Accepted(job.trim, originalStart, originalEnd) && (job.trim.start.Limit? || job.trim.end.Limit?))
                || isChannelManipulationValid || job.namesBase || job.namesSize
    {
      CheckChannels(m, job);
      originalStart, originalEnd := GetOriginalStartFinishTimestamps(m);
      SpanIsWhole(m, originalStart, originalEnd);
      hide IsSpan, ChannelNames, Requested, SelectionValid;
      var isTrimmingValid := CheckTrimming(job);
      valid := !((!isTrimmingValid || (job.trim.start.Unset? && job.trim.end.Unset?))
                 && !isChannelManipulationValid && !job.namesBase && !job.namesSize);
    }

    /** `convert`, not aborted: the calls to the exporter, in order. */
    method Convert(m: Measurement, infos: map<Str, Info>, job: Job) returns (calls: seq<Call>)
      requires Readable(m) && calculatedStart <= calculatedEnd
      ensures calls == Cut(m, infos, Selection(isChannelManipulationValid, job.operation, job.mentioned),
                           calculatedStart, calculatedEnd, Sorted(ChannelNames(m)))
      ensures isChannelManipulationValid && job.operation.Include? ==>
                forall n :: Creates(calls, n) <==> n in ChannelNames(m) && n in job.mentioned
      ensures isChannelManipulationValid && job.operation.Exclude? ==>
                forall n :: Creates(calls, n) <==> n in ChannelNames(m) && n !in job.mentioned
      ensures !isChannelManipulationValid || job.operation.NoOperation? ==>
                forall n :: Creates(calls, n) <==> n in ChannelNames(m)
    {
      hide Cut, ChannelCalls;
      calls := [];
      var s := Selection(isChannelManipulationValid, job.operation, job.mentioned);
      var names := Sorted(ChannelNames(m));
      NothingCut(m, infos, s, calculatedStart, calculatedEnd);
      assert names[..0] == [];
      for i := 0 to |names|
        invariant calls == Cut(m, infos, s, calculatedStart, calculatedEnd, names[..i])
      {
        var name := names[i];
        CutOneMore(m, infos, s, calculatedStart, calculatedEnd, names, i);
        if isChannelManipulationValid {
          if job.operation.Exclude? && name in job.mentioned {
            continue;
          }
          if job.operation.Include? && name !in job.mentioned {
            continue;
          }
        }
        var exported := ExportChannel(m, infos, name, calculatedStart, calculatedEnd);
        calls := calls + exported;
      }
      assert names[..|names|] == names;
      hide Selected, Creates;
      forall n ensures n in names <==> n in ChannelNames(m) {
      }
      forall n {
        CutCreates(m, infos, s, calculatedStart, calculatedEnd, names, n);
      }
    }
  }
}
