/** Whatever the schedule of appends, polls and restarts, an append-only log is read the same way. */
module LiveSchedule {
  import opened Common
  import opened LiveMachine
  import opened LiveRuns
  import opened LivePersist
  import opened LogScan
  import opened LiveTail

  datatype Act = Append(bytes: Bytes) | Poll | Restart

  /** The log (absent until first written), the tailer process, and all it has reported so far. */
  datatype Site = Site(log: Option<LogFile>, tail: Tail, reported: seq<Event>)

  const FRESH := Tail(Machine(CLEARED, 0), None, None)

  /** One act on a log whose file is `identity`. None: the new process refused its stored state. */
  function Perform(rd: Reader, identity: string, s: Site, act: Act): Option<Site> {
    match act
    case Append(bytes) =>
      Some(s.(log := Some(LogFile(identity, Content(s.log) + bytes))))
    case Poll =>
      var (tail, events) := PollStep(rd, s.tail, s.log);
      Some(s.(tail := tail, reported := s.reported + events))
    case Restart =>
      match Load(rd, s.tail.store, s.tail.machine.drawn)
      case Err(_) => None
      case Ok(tail) => Some(s.(tail := tail))
  }

  function Content(log: Option<LogFile>): Bytes {
    if log.None? then [] else log.value.bytes
  }

  function PerformAll(rd: Reader, identity: string, acts: seq<Act>): Option<Site> {
    if acts == [] then Some(Site(None, FRESH, []))
    else
      match PerformAll(rd, identity, acts[..|acts| - 1])
      case None => None
      case Some(s) => Perform(rd, identity, s, acts[|acts| - 1])
  }

  // ----- What a schedule has come to -----

  /** The scan, from a fresh machine, of everything that had been written by the last poll. */
  function Seen(rd: Reader, polled: Bytes): Scanned<Machine, Event> {
    ScanDivs(rd, Machine(CLEARED, 0), polled)
  }

  /** The cursor a tailer holds over `log` when it has used up `consumed` bytes. */
  ghost predicate CursorStands(log: Option<LogFile>, cur: Option<Cursor>, consumed: nat) {
    match cur
    case None => consumed == 0
    case Some(c) => log.Some? && consumed <= |log.value.bytes| && c == CursorForOffset(log.value, consumed)
  }

  /** The site is as if the first |polled| bytes of its log had been scanned once by a fresh process. */
  ghost predicate InStep(rd: Reader, identity: string, s: Site, polled: Bytes) {
    var seen := Seen(rd, polled);
    && polled <= Content(s.log)
    && (s.log.Some? ==> s.log.value.identity == identity)
    && s.tail.machine == seen.machine
    && Consistent(rd.setting.compatibility, seen.machine.state)
    && CursorStands(s.log, s.tail.cursor, seen.consumed)
    && (match s.tail.store
        case None => seen.consumed == 0 && seen.machine == Machine(CLEARED, 0)
        case Some(st) => s.log.Some? && st.cursor == CursorForOffset(s.log.value, seen.consumed)
                         && st.machine == Persist(seen.machine.state))
    && Latest(StartsStream, s.reported) == Latest(StartsStream, seen.events)
  }

  /** Handling a div keeps the machine's parts in agreement. */
  lemma SegmentConsistent(rd: Reader, m: Machine, segment: Bytes)
    requires Strict(rd) && Consistent(rd.setting.compatibility, m.state)
    ensures Consistent(rd.setting.compatibility, HandleSegment(rd, m, segment).0.state)
  {
    var frame := FrameOf(segment);
    if frame.Some? {
      var r := rd.decode(frame.value);
      if r.Some? {
        StepConsistent(rd.setting, m, Accept(r.value));
        StepConsistent(rd.setting, Apply(rd.setting, m, Accept(r.value)).0, LoseReadiness);
      } else {
        StepConsistent(rd.setting, m, LoseReadiness);
      }
    }
  }

  lemma {:induction false} ScanConsistent(rd: Reader, m: Machine, chunk: Bytes)
    requires Strict(rd) && Consistent(rd.setting.compatibility, m.state)
    ensures Consistent(rd.setting.compatibility, ScanDivs(rd, m, chunk).machine.state)
    decreases |chunk|
  {
    var found := Find(chunk, TEXT_DIV_CLOSE);
    if found.Some? {
      var end := found.value + |TEXT_DIV_CLOSE|;
      SegmentConsistent(rd, m, chunk[..end]);
      ScanConsistent(rd, HandleSegment(rd, m, chunk[..end]).0, chunk[end..]);
    }
  }

  lemma SeenConsistent(rd: Reader, polled: Bytes)
    requires Strict(rd)
    ensures Consistent(rd.setting.compatibility, Seen(rd, polled).machine.state)
  {
    ScanConsistent(rd, Machine(CLEARED, 0), polled);
  }

  lemma AppendKeepsInStep(rd: Reader, identity: string, s: Site, polled: Bytes, bytes: Bytes)
    requires InStep(rd, identity, s, polled)
    ensures InStep(rd, identity, Perform(rd, identity, s, Append(bytes)).value, polled)
  {
    var seen := Seen(rd, polled);
    if s.log.Some? {
      CursorSurvives(s.log.value, bytes, seen.consumed);
    }
  }

  /** Bytes in front of the cursor do not change when the log grows. */
  lemma CursorSurvives(log: LogFile, bytes: Bytes, offset: nat)
    requires offset <= |log.bytes|
    ensures CursorForOffset(log.(bytes := log.bytes + bytes), offset) == CursorForOffset(log, offset)
  {
    var start := CursorForOffset(log, offset).anchorStart;
    assert (log.bytes + bytes)[start..offset] == log.bytes[start..offset];
  }

  lemma RestartKeepsInStep(rd: Reader, identity: string, s: Site, polled: Bytes)
    requires InStep(rd, identity, s, polled)
    ensures var s' := Perform(rd, identity, s, Restart); s'.Some? && InStep(rd, identity, s'.value, polled)
  {
    RoundTripIffConsistent(rd.setting.compatibility, s.tail.machine.state);
  }

  /** Everything seen of a longer log is what was seen before, and what the rest adds from there. */
  lemma SeenMore(rd: Reader, polled: Bytes, late: Bytes)
    ensures var seen := Seen(rd, polled);
            seen.consumed <= |polled| &&
            var more := ScanDivs(rd, seen.machine, (polled + late)[seen.consumed..]);
            Seen(rd, polled + late) == Scanned(more.machine, seen.events + more.events, seen.consumed + more.consumed)
  {
    ScanSplits(Handler(rd), TEXT_DIV_CLOSE, Machine(CLEARED, 0), polled, late);
  }

  lemma PollKeepsInStep(rd: Reader, identity: string, s: Site, polled: Bytes)
    requires Strict(rd) && InStep(rd, identity, s, polled)
    ensures InStep(rd, identity, Perform(rd, identity, s, Poll).value, Content(s.log))
  {
    if s.log.None? {
      return;
    }
    hide ScanDivs, Seen, PollStep, Consistent, Latest, CursorForOffset, Persist;
    var file, seen := s.log.value, Seen(rd, polled);
    var late := file.bytes[|polled|..];
    assert file.bytes == polled + late;
    SeenMore(rd, polled, late);
    var more := ScanDivs(rd, seen.machine, file.bytes[seen.consumed..]);
    PollReads(rd, s, file, seen.consumed);
    SeenConsistent(rd, file.bytes);
    LatestCongruent(StartsStream, seen.events, s.reported, more.events);
    if more.consumed == 0 {
      IdleDivs(rd, seen.machine, file.bytes[seen.consumed..]);
    }
  }

  /** A poll of a log that has only grown goes on reading where the cursor stands. */
  lemma PollReads(rd: Reader, s: Site, file: LogFile, consumed: nat)
    requires s.log == Some(file) && CursorStands(s.log, s.tail.cursor, consumed)
    ensures consumed <= |file.bytes|
    ensures var more := ScanDivs(rd, s.tail.machine, file.bytes[consumed..]);
            var next := CursorForOffset(file, consumed + more.consumed);
            PollStep(rd, s.tail, s.log)
            == (Tail(more.machine, Some(next), if more.consumed == 0 then s.tail.store else Stores(more.machine, next)),
                Latest(StartsStream, more.events))
  {
  }

  lemma {:induction false} ScheduleInStep(rd: Reader, identity: string, acts: seq<Act>) returns (polled: Bytes)
    requires Strict(rd)
    ensures var s := PerformAll(rd, identity, acts);
            && s.Some? && InStep(rd, identity, s.value, polled)
            && (acts != [] && acts[|acts| - 1] == Poll ==> polled == Content(s.value.log))
  {
    if acts == [] {
      polled := [];
    } else {
      var s := PerformAll(rd, identity, acts[..|acts| - 1]);
      polled := ScheduleInStep(rd, identity, acts[..|acts| - 1]);
      match acts[|acts| - 1]
      case Append(bytes) =>
        AppendKeepsInStep(rd, identity, s.value, polled, bytes);
      case Poll =>
        PollKeepsInStep(rd, identity, s.value, polled);
        polled := Content(s.value.log);
      case Restart =>
        RestartKeepsInStep(rd, identity, s.value, polled);
    }
  }

  /** Everything a schedule appends, in order. */
  function Written(acts: seq<Act>): Bytes {
    if acts == [] then []
    else Written(acts[..|acts| - 1]) + if acts[|acts| - 1].Append? then acts[|acts| - 1].bytes else []
  }

  lemma {:induction false} LogIsWritten(rd: Reader, identity: string, acts: seq<Act>)
    requires PerformAll(rd, identity, acts).Some?
    ensures Content(PerformAll(rd, identity, acts).value.log) == Written(acts)
    ensures PerformAll(rd, identity, acts).value.log.Some? <==> exists i :: 0 <= i < |acts| && acts[i].Append?
  {
    if acts != [] {
      var front := acts[..|acts| - 1];
      LogIsWritten(rd, identity, front);
      assert forall i :: 0 <= i < |front| ==> acts[i] == front[i];
    }
  }

  /**
   * However a log is appended, polled and its reader restarted, once the last word has been polled the
   * machine, the cursor and the events from the last STREAM_STARTED on are those of one single poll.
   */
  lemma CutsDoNotMatter(rd: Reader, identity: string, acts: seq<Act>)
    requires Strict(rd)
    requires acts != [] && acts[|acts| - 1] == Poll && exists i :: 0 <= i < |acts| && acts[i].Append?
    ensures var many := PerformAll(rd, identity, acts);
            var once := PollStep(rd, FRESH, Some(LogFile(identity, Written(acts))));
            && many.Some?
            && many.value.tail.machine == once.0.machine
            && many.value.tail.cursor == once.0.cursor
            && Latest(StartsStream, many.value.reported) == once.1
  {
    var polled := ScheduleInStep(rd, identity, acts);
    var many := PerformAll(rd, identity, acts).value;
    LogIsWritten(rd, identity, acts);
    var site := Site(many.log, FRESH, []);
    PollReads(rd, site, many.log.value, 0);
    assert many.log.value.bytes[0..] == many.log.value.bytes;
    assert many.tail.cursor.Some? by {
      PolledHasCursor(rd, identity, acts);
    }
  }

  lemma PolledHasCursor(rd: Reader, identity: string, acts: seq<Act>)
    requires acts != [] && acts[|acts| - 1] == Poll && PerformAll(rd, identity, acts).Some?
    requires PerformAll(rd, identity, acts).value.log.Some?
    ensures PerformAll(rd, identity, acts).value.tail.cursor.Some?
  {
  }
}
