/** Tailing the log: complete text divs, the durable cursor, and one poll. */
module LiveTail {
  import opened Common
  import opened LiveMachine
  import opened LiveRuns
  import opened LivePersist
  import opened LogScan

  const TEXT_DIV_OPEN: Bytes := "<div class=\"text\">"
  const TEXT_DIV_CLOSE: Bytes := "</div>"
  const FRAME_PREFIX: Bytes := "BBAGENT1|"
  const ANCHOR_BYTES: nat := 256

  // ----- One complete div -----

  /** How frames are decoded; any decoder that only yields valid records will do. */
  datatype Reader = Reader(setting: Setting, decode: Bytes -> Option<Record>)

  ghost predicate Strict(rd: Reader) {
    forall b :: rd.decode(b).Some? ==> ValidRecord(rd.decode(b).value)
  }

  /** The text of the innermost div that a segment ending in a close tag completes, if there is one. */
  function DivText(segment: Bytes): Option<Bytes> {
    match FindLast(segment, TEXT_DIV_OPEN, |segment|)
    case None => None
    case Some(i) => Some(Slice(segment, i + |TEXT_DIV_OPEN|, |segment| - |TEXT_DIV_CLOSE|))
  }

  /** A frame, if the segment completes a div that claims to hold one. */
  function FrameOf(segment: Bytes): Option<Bytes> {
    match DivText(segment)
    case None => None
    case Some(text) => if OccursAt(text, FRAME_PREFIX, 0) then Some(text) else None
  }

  const MALFORMED := Event(REJECTED_MALFORMED, None, None)

  /** What one frame does; an undecodable frame, or a call that raises, costs the current advice. */
  function HandleFrame(rd: Reader, m: Machine, frame: Bytes): (Machine, Event) {
    match rd.decode(frame)
    case None => (Apply(rd.setting, m, LoseReadiness).0, MALFORMED)
    case Some(r) =>
      var (m', e) := Apply(rd.setting, m, Accept(r));
      if e.Some? then (m', e.value) else (Apply(rd.setting, m', LoseReadiness).0, MALFORMED)
  }

  /** What a segment ending in a close tag does. */
  function HandleSegment(rd: Reader, m: Machine, segment: Bytes): (r: (Machine, seq<Event>))
    ensures |r.1| <= 1
  {
    match FrameOf(segment)
    case None => (m, [])
    case Some(frame) => var (m', e) := HandleFrame(rd, m, frame); (m', [e])
  }

  function Handler(rd: Reader): (Machine, Bytes) -> (Machine, seq<Event>) {
    (m, segment) => HandleSegment(rd, m, segment)
  }

  predicate StartsStream(e: Event) {
    e.status == STREAM_STARTED
  }

  function ScanDivs(rd: Reader, m: Machine, chunk: Bytes): (r: Scanned<Machine, Event>)
    ensures r.consumed <= |chunk|
  {
    Scan(Handler(rd), TEXT_DIV_CLOSE, m, chunk)
  }

  lemma IdleDivs(rd: Reader, m: Machine, chunk: Bytes)
    requires ScanDivs(rd, m, chunk).consumed == 0
    ensures ScanDivs(rd, m, chunk) == Scanned(m, [], 0)
  {
    ScanIdle(Handler(rd), TEXT_DIV_CLOSE, m, chunk);
  }

  // ----- The cursor -----

  /** SHA-256 of a byte string, idealised as in the machine. */
  datatype ByteDigest = ByteDigest(bytes: Bytes)

  datatype Cursor = Cursor(fileIdentity: string, offset: nat, anchorStart: nat, anchor: ByteDigest)

  datatype LogFile = LogFile(identity: string, bytes: Bytes)

  datatype Stored = Stored(cursor: Cursor, machine: Persisted)

  function CursorForOffset(log: LogFile, offset: nat): Cursor {
    var start := if offset < ANCHOR_BYTES then 0 else offset - ANCHOR_BYTES;
    Cursor(log.identity, offset, start, ByteDigest(Slice(log.bytes, start, offset)))
  }

  predicate AnchorMatches(cur: Cursor, log: LogFile) {
    ByteDigest(Slice(log.bytes, cur.anchorStart, cur.offset)) == cur.anchor
  }

  // ----- One poll -----

  datatype Tail = Tail(machine: Machine, cursor: Option<Cursor>, store: Option<Stored>)

  const DISCONTINUITY := Event(STREAM_DISCONTINUITY, None, None)

  function Stores(m: Machine, cur: Cursor): Option<Stored> {
    Some(Stored(cur, Persist(m.state)))
  }

  /** Forget the stream, go to the end of the file and wait there. */
  function Resync(rd: Reader, t: Tail, log: LogFile): (Tail, seq<Event>) {
    var m := Apply(rd.setting, t.machine, LoseLog).0;
    var cur := CursorForOffset(log, |log.bytes|);
    (Tail(m, Some(cur), Stores(m, cur)), [DISCONTINUITY])
  }

  /** What one poll does with the log as it is now (None: the file is not there). */
  function PollStep(rd: Reader, t: Tail, log: Option<LogFile>): (Tail, seq<Event>) {
    match log
    case None =>
      if t.cursor.None? then (t, [])
      else
        var m := Apply(rd.setting, t.machine, LoseLog).0;
        (Tail(m, t.cursor, Stores(m, t.cursor.value)), [DISCONTINUITY])
    case Some(file) =>
      var cur := if t.cursor.Some? then t.cursor.value else Cursor(file.identity, 0, 0, ByteDigest([]));
      if file.identity != cur.fileIdentity || |file.bytes| < cur.offset || !AnchorMatches(cur, file) then
        Resync(rd, t, file)
      else
        var scanned := ScanDivs(rd, t.machine, file.bytes[cur.offset..]);
        if scanned.consumed == 0 then (Tail(scanned.machine, Some(cur), t.store), Latest(StartsStream, scanned.events))
        else
          var next := CursorForOffset(file, cur.offset + scanned.consumed);
          (Tail(scanned.machine, Some(next), Stores(scanned.machine, next)), Latest(StartsStream, scanned.events))
  }

  /** The log is not the one the cursor was taken from: gone, replaced, cut short, or rewritten at the anchor. */
  predicate Broken(cur: Cursor, log: Option<LogFile>) {
    || log.None?
    || log.value.identity != cur.fileIdentity
    || |log.value.bytes| < cur.offset
    || !AnchorMatches(cur, log.value)
  }

  /** A poll of a broken log forgets the stream and waits at the end; any other poll keeps reading from the cursor. */
  lemma PollFailsClosed(rd: Reader, t: Tail, log: Option<LogFile>)
    requires t.cursor.Some?
    ensures Broken(t.cursor.value, log) ==>
              var (t', events) := PollStep(rd, t, log);
              && events == [DISCONTINUITY] && t'.machine.state == CLEARED && t'.machine.drawn == t.machine.drawn
              && t'.store == Stores(t'.machine, t'.cursor.value)
              && (log.Some? ==> t'.cursor == Some(CursorForOffset(log.value, |log.value.bytes|)))
    ensures !Broken(t.cursor.value, log) ==>
              var scanned := ScanDivs(rd, t.machine, log.value.bytes[t.cursor.value.offset..]);
              var (t', events) := PollStep(rd, t, log);
              && t'.machine == scanned.machine && events == Latest(StartsStream, scanned.events)
              && t'.cursor.Some? && t'.cursor.value.offset == t.cursor.value.offset + scanned.consumed
  {
  }

  /** What a new process starts from: the stored state if there is one, checked before use. */
  function Load(rd: Reader, store: Option<Stored>, drawn: nat): Result<Tail, string> {
    match store
    case None => Ok(Tail(Machine(CLEARED, drawn), None, None))
    case Some(st) =>
      if st.cursor.anchorStart > st.cursor.offset then Err("live ingest anchor_start exceeds offset")
      else if st.cursor.offset - st.cursor.anchorStart > ANCHOR_BYTES then
        Err("live ingest cursor anchor exceeds maximum span")
      else
        match Restore(rd.setting.compatibility, st.machine)
        case Err(e) => Err(e)
        case Ok(s) => Ok(Tail(Machine(s, drawn), Some(st.cursor), store))
  }

  predicate Anchored(cur: Cursor) {
    cur.anchorStart <= cur.offset <= cur.anchorStart + ANCHOR_BYTES
  }

  /** The stored state is what a consistent machine in the state `s` leaves, beside a cursor with a short anchor. */
  ghost predicate LeftBy(rd: Reader, st: Stored, s: State) {
    Anchored(st.cursor) && Consistent(rd.setting.compatibility, s) && st.machine == Persist(s)
  }

  /**
   * A new process starts exactly if nothing is stored or a consistent machine can have left what is stored,
   * and then it is in the state of any machine that can.
   */
  lemma LoadsIff(rd: Reader, store: Option<Stored>, drawn: nat)
    ensures Load(rd, store, drawn).Ok? <==> store.None? || exists s :: LeftBy(rd, store.value, s)
    ensures store.Some? ==>
              forall s :: LeftBy(rd, store.value, s) ==>
                Load(rd, store, drawn) == Ok(Tail(Machine(s, drawn), Some(store.value.cursor), store))
  {
    if store.Some? {
      var st := store.value;
      forall s | LeftBy(rd, st, s)
        ensures Load(rd, store, drawn) == Ok(Tail(Machine(s, drawn), Some(st.cursor), store))
      {
        RoundTripIffConsistent(rd.setting.compatibility, s);
      }
      if Load(rd, store, drawn).Ok? {
        RestoreIsInverse(rd.setting.compatibility, st.machine);
        assert LeftBy(rd, st, Load(rd, store, drawn).value.machine.state);
      }
    }
  }

  // ----- The tailer as it is run -----

  class LiveLogTailer {
    const reader: Reader
    const machine: LiveIngestMachine
    var cursor: Option<Cursor>
    /** The state file: replaced as a whole, read only by a new process. */
    var store: Option<Stored>

    ghost predicate Valid() {
      machine.compatibility == reader.setting.compatibility && machine.streamIds == reader.setting.streamIds
    }

    function Now(): Tail
      reads this, machine
    {
      Tail(Machine(machine.Now(), machine.drawn), cursor, store)
    }

    constructor (reader: Reader, machine: LiveIngestMachine, cursor: Option<Cursor>, store: Option<Stored>)
      ensures this.reader == reader && this.machine == machine
      ensures this.cursor == cursor && this.store == store
    {
      this.reader, this.machine, this.cursor, this.store := reader, machine, cursor, store;
    }

    /** A new process over the stored state. */
    static method Open(reader: Reader, store: Option<Stored>, drawn: nat) returns (r: Result<LiveLogTailer, string>)
      ensures var loaded := Load(reader, store, drawn);
              && (loaded.Err? ==> r == Err(loaded.error))
              && (loaded.Ok? ==> r.Ok? && r.value.Valid() && r.value.reader == reader
                                 && fresh(r.value) && fresh(r.value.machine) && r.value.Now() == loaded.value)
      ensures r.Ok? <==> store.None? || exists s :: LeftBy(reader, store.value, s)
    {
      LoadsIff(reader, store, drawn);
      var loaded := Load(reader, store, drawn);
      if loaded.Err? {
        return Err(loaded.error);
      }
      var machine := new LiveIngestMachine(
        reader.setting.compatibility, reader.setting.streamIds, drawn, loaded.value.machine.state);
      var tailer := new LiveLogTailer(reader, machine, loaded.value.cursor, store);
      r := Ok(tailer);
    }

    method PersistState()
      modifies this`store
      ensures store == if cursor.Some? then Stores(Now().machine, cursor.value) else old(store)
    {
      if cursor.Some? {
        store := Some(Stored(cursor.value, Persist(machine.Now())));
      }
    }

    method Poll(log: Option<LogFile>) returns (events: seq<Event>)
      requires Valid()
      modifies this, machine
      ensures Valid() && (Now(), events) == PollStep(reader, old(Now()), log)
    {
      if log.None? {
        if cursor.None? {
          return [];
        }
        machine.InvalidateForDiscontinuity();
        PersistState();
        return [DISCONTINUITY];
      }
      var file := log.value;
      if cursor.None? {
        cursor := Some(Cursor(file.identity, 0, 0, ByteDigest([])));
      } else if file.identity != cursor.value.fileIdentity || |file.bytes| < cursor.value.offset {
        machine.InvalidateForDiscontinuity();
        cursor := Some(CursorForOffset(file, |file.bytes|));
        PersistState();
        return [DISCONTINUITY];
      }
      if !AnchorMatches(cursor.value, file) {
        machine.InvalidateForDiscontinuity();
        cursor := Some(CursorForOffset(file, |file.bytes|));
        PersistState();
        return [DISCONTINUITY];
      }
      var consumedOffset;
      events, consumedOffset := ReadCompleteDivs(file.bytes, cursor.value.offset);
      if consumedOffset != cursor.value.offset {
        cursor := Some(CursorForOffset(file, consumedOffset));
        PersistState();
      }
    }

    method ReadCompleteDivs(bytes: Bytes, offset: nat) returns (events: seq<Event>, consumedOffset: nat)
      requires Valid() && offset <= |bytes|
      modifies machine
      ensures var scanned := ScanDivs(reader, old(Now()).machine, bytes[offset..]);
              && Now().machine == scanned.machine
              && events == Latest(StartsStream, scanned.events)
              && consumedOffset == offset + scanned.consumed
    {
      var chunk := bytes[offset..];
      ghost var handle := Handler(reader);
      ghost var whole := Scan(handle, TEXT_DIV_CLOSE, Now().machine, chunk);
      ghost var all: seq<Event> := [];
      events := [];
      var scan, consumed := 0, 0;
      ScanStarts(handle, TEXT_DIV_CLOSE, Now().machine, chunk);
      while true
        invariant consumed == scan <= |chunk|
        invariant events == Latest(StartsStream, all)
        invariant Halfway(handle, TEXT_DIV_CLOSE, whole, chunk, scan, Now().machine, all)
        decreases |chunk| - scan
      {
        var close := Find(chunk[scan..], TEXT_DIV_CLOSE);
        if close.None? {
          NoNextSegment(handle, TEXT_DIV_CLOSE, whole, chunk, scan, Now().machine, all);
          break;
        }
        FindInside(chunk, scan, TEXT_DIV_CLOSE);
        var end := scan + close.value + |TEXT_DIV_CLOSE|;
        ghost var (m', more) := HandleSegment(reader, Now().machine, chunk[scan..end]);
        ReadOne(handle, TEXT_DIV_CLOSE, whole, StartsStream, chunk, scan, Now().machine, all, close.value, m', more);
        events := HandleDiv(chunk[scan..end], events);
        all := all + more;
        consumed, scan := end, end;
      }
      consumedOffset := offset + consumed;
    }

    /** The loop's body: handle a completed div, and forget earlier events when it started a stream. */
    method HandleDiv(segment: Bytes, events: seq<Event>) returns (events': seq<Event>)
      requires Valid()
      modifies machine
      ensures var (m, more) := HandleSegment(reader, old(Now()).machine, segment);
              && Now().machine == m
              && events' == (if more == [] then events
                             else if StartsStream(more[0]) then more else events + more)
    {
      events' := events;
      var frame := FrameOf(segment);
      if frame.Some? {
        var event := HandleOne(frame.value);
        if StartsStream(event) {
          events' := [];
        }
        events' := events' + [event];
      }
    }

    method HandleOne(frame: Bytes) returns (event: Event)
      requires Valid()
      modifies machine
      ensures (Now().machine, event) == HandleFrame(reader, old(Now()).machine, frame)
    {
      var record := reader.decode(frame);
      if record.Some? {
        var accepted := machine.Accept(record.value);
        if accepted.Some? {
          return accepted.value;
        }
      }
      machine.InvalidateCurrentReadiness();
      event := MALFORMED;
    }
  }
}
