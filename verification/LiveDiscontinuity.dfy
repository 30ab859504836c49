/** A log that may be removed, replaced, cut short or rewritten at any moment: advice only follows a stream start. */
module LiveDiscontinuity {
  import opened Common
  import opened LiveMachine
  import opened LiveRuns
  import opened LivePersist
  import opened LogScan
  import opened LiveTail
  import opened LiveSchedule

  /** The log file becomes anything at all (None: it is gone), or the tailer acts. */
  datatype Turn = Change(log: Option<LogFile>) | Look | Reopen

  function Take(rd: Reader, s: Site, turn: Turn): Option<Site> {
    match turn
    case Change(log) => Some(s.(log := log))
    case Look => Perform(rd, "", s, Poll)
    case Reopen => Perform(rd, "", s, Restart)
  }

  /** Where a site is after all the turns. None: a new process refused its stored state on the way. */
  function TakeAll(rd: Reader, s: Site, turns: seq<Turn>): Option<Site> {
    if turns == [] then Some(s)
    else
      match TakeAll(rd, s, turns[..|turns| - 1])
      case None => None
      case Some(t) => Take(rd, t, turns[|turns| - 1])
  }

  const UNUSED := Site(None, FRESH, [])

  // ----- The promise -----

  predicate BreaksStream(e: Event) {
    e.status == STREAM_DISCONTINUITY
  }

  predicate Advises(e: Event) {
    Announces(Some(e))
  }

  /** The last event that starts a stream has not been followed by a discontinuity. */
  ghost predicate InStream(es: seq<Event>) {
    exists k :: StartsAt(es, k)
  }

  ghost predicate StartsAt(es: seq<Event>, k: nat) {
    k < |es| && StartsStream(es[k]) && forall d :: k < d < |es| ==> !BreaksStream(es[d])
  }

  /** Whatever is announced is announced within a stream. */
  ghost predicate Trustworthy(es: seq<Event>) {
    forall j :: 0 <= j < |es| && Advises(es[j]) ==> InStream(es[..j])
  }

  lemma StaysInStream(es: seq<Event>, more: seq<Event>)
    requires InStream(es) && forall e :: e in more ==> !BreaksStream(e)
    ensures InStream(es + more)
  {
    var k :| StartsAt(es, k);
    assert StartsAt(es + more, k);
  }

  lemma StartsAfresh(es: seq<Event>, more: seq<Event>)
    requires more != [] && StartsStream(more[0]) && forall e :: e in more ==> !BreaksStream(e)
    ensures InStream(es + more)
  {
    assert StartsAt(es + more, |es|);
  }

  /** Events that advise nothing, or advise within a stream, keep the record trustworthy. */
  lemma TrustGrows(es: seq<Event>, more: seq<Event>)
    requires Trustworthy(es)
    requires forall j :: 0 <= j < |more| && Advises(more[j]) ==> InStream(es + more[..j])
    ensures Trustworthy(es + more)
  {
    forall j | 0 <= j < |es + more| && Advises((es + more)[j]) ensures InStream((es + more)[..j]) {
      if j < |es| {
        assert (es + more)[..j] == es[..j];
      } else {
        assert (es + more)[..j] == es + more[..j - |es|];
      }
    }
  }

  // ----- What a scan reports -----

  lemma {:induction false} ScanNeverBreaks(rd: Reader, m: Machine, chunk: Bytes)
    ensures forall e :: e in ScanDivs(rd, m, chunk).events ==> !BreaksStream(e)
    decreases |chunk|
  {
    var found := Find(chunk, TEXT_DIV_CLOSE);
    if found.Some? {
      var end := found.value + |TEXT_DIV_CLOSE|;
      ScanNeverBreaks(rd, HandleSegment(rd, m, chunk[..end]).0, chunk[end..]);
    }
  }

  /** With no stream open, a segment that starts none advises nothing and opens none. */
  lemma SegmentQuiet(rd: Reader, m: Machine, segment: Bytes)
    requires m.state == CLEARED
    requires forall e :: e in HandleSegment(rd, m, segment).1 ==> !StartsStream(e)
    ensures HandleSegment(rd, m, segment).0.state == CLEARED
    ensures forall e :: e in HandleSegment(rd, m, segment).1 ==> !Advises(e)
  {
    var (m', es) := HandleSegment(rd, m, segment);
    if es != [] {
      assert es[0] in es;
    }
  }

  lemma {:induction false} ScanQuiet(rd: Reader, m: Machine, chunk: Bytes)
    requires m.state == CLEARED
    requires forall e :: e in ScanDivs(rd, m, chunk).events ==> !StartsStream(e)
    ensures ScanDivs(rd, m, chunk).machine.state == CLEARED
    ensures forall e :: e in ScanDivs(rd, m, chunk).events ==> !Advises(e)
    decreases |chunk|
  {
    var found := Find(chunk, TEXT_DIV_CLOSE);
    if found.Some? {
      var end := found.value + |TEXT_DIV_CLOSE|;
      var (m', es) := HandleSegment(rd, m, chunk[..end]);
      var rest := ScanDivs(rd, m', chunk[end..]);
      assert ScanDivs(rd, m, chunk).events == es + rest.events;
      SegmentQuiet(rd, m, chunk[..end]);
      ScanQuiet(rd, m', chunk[end..]);
    }
  }

  lemma {:induction false} LatestAreEvents(es: seq<Event>)
    ensures forall e :: e in Latest(StartsStream, es) ==> e in es
  {
    if es != [] {
      LatestAreEvents(es[..|es| - 1]);
    }
  }

  lemma {:induction false} LatestStarts(es: seq<Event>, k: nat)
    requires k < |es| && StartsStream(es[k])
    ensures Latest(StartsStream, es) != [] && StartsStream(Latest(StartsStream, es)[0])
  {
    if k < |es| - 1 {
      LatestStarts(es[..|es| - 1], k);
    }
  }

  lemma {:induction false} LatestWithoutStart(es: seq<Event>)
    requires forall e :: e in es ==> !StartsStream(e)
    ensures Latest(StartsStream, es) == es
  {
    if es != [] {
      LatestWithoutStart(es[..|es| - 1]);
      assert es[|es| - 1] in es && es == es[..|es| - 1] + [es[|es| - 1]];
    }
  }

  /** Reading on keeps the record trustworthy, and leaves an open stream only within one. */
  lemma ScanKeepsTrust(rd: Reader, m: Machine, chunk: Bytes, reported: seq<Event>)
    requires Trustworthy(reported) && (m.state != CLEARED ==> InStream(reported))
    ensures var scanned := ScanDivs(rd, m, chunk);
            var told := reported + Latest(StartsStream, scanned.events);
            Trustworthy(told) && (scanned.machine.state != CLEARED ==> InStream(told))
  {
    var scanned := ScanDivs(rd, m, chunk);
    var more := Latest(StartsStream, scanned.events);
    ScanNeverBreaks(rd, m, chunk);
    LatestAreEvents(scanned.events);
    if k: nat :| k < |scanned.events| && StartsStream(scanned.events[k]) {
      LatestStarts(scanned.events, k);
      StartsAfresh(reported, more);
      forall j | 0 <= j < |more| && Advises(more[j]) ensures InStream(reported + more[..j]) {
        StartsAfresh(reported, more[..j]);
      }
    } else if m.state == CLEARED {
      LatestWithoutStart(scanned.events);
      ScanQuiet(rd, m, chunk);
    } else {
      StaysInStream(reported, more);
      forall j | 0 <= j < |more| ensures InStream(reported + more[..j]) {
        StaysInStream(reported, more[..j]);
      }
    }
    TrustGrows(reported, more);
  }

  // ----- The invariant -----

  /** What is stored would bring the machine back as it is; nothing stored means nothing to bring back. */
  ghost predicate Recoverable(t: Tail) {
    match t.store
    case None => t.machine.state == CLEARED
    case Some(st) => Anchored(st.cursor) && st.machine == Persist(t.machine.state)
  }

  ghost predicate Sound(rd: Reader, s: Site) {
    && Consistent(rd.setting.compatibility, s.tail.machine.state)
    && (s.tail.cursor.Some? ==> Anchored(s.tail.cursor.value))
    && Recoverable(s.tail)
    && Trustworthy(s.reported)
    && (s.tail.machine.state != CLEARED ==> InStream(s.reported))
  }

  lemma LookKeepsSound(rd: Reader, s: Site)
    requires Strict(rd) && Sound(rd, s)
    ensures Sound(rd, Take(rd, s, Look).value)
  {
    var t := s.tail;
    if t.cursor.Some? && Broken(t.cursor.value, s.log) {
      PollFailsClosed(rd, t, s.log);
      TrustGrows(s.reported, [DISCONTINUITY]);
    } else if s.log.None? {
      assert s.reported + [] == s.reported;
    } else {
      LookReads(rd, s);
    }
  }

  /** A poll whose cursor, if there is one, fits the log. */
  lemma LookReads(rd: Reader, s: Site)
    requires Strict(rd) && Sound(rd, s) && s.log.Some?
    requires s.tail.cursor.Some? ==> !Broken(s.tail.cursor.value, s.log)
    ensures Sound(rd, Take(rd, s, Look).value)
  {
    var t, file := s.tail, s.log.value;
    var from := if t.cursor.Some? then t.cursor.value.offset else 0;
    var chunk := file.bytes[from..];
    ScanConsistent(rd, t.machine, chunk);
    ScanKeepsTrust(rd, t.machine, chunk, s.reported);
    if ScanDivs(rd, t.machine, chunk).consumed == 0 {
      IdleDivs(rd, t.machine, chunk);
    }
  }

  lemma ReopenKeepsSound(rd: Reader, s: Site)
    requires Sound(rd, s)
    ensures var s' := Take(rd, s, Reopen); s'.Some? && Sound(rd, s'.value)
  {
    RoundTripIffConsistent(rd.setting.compatibility, s.tail.machine.state);
  }

  lemma {:induction false} TurnsKeepSound(rd: Reader, s: Site, turns: seq<Turn>)
    requires Strict(rd) && Sound(rd, s)
    ensures TakeAll(rd, s, turns).Some? && Sound(rd, TakeAll(rd, s, turns).value)
  {
    if turns != [] {
      TurnsKeepSound(rd, s, turns[..|turns| - 1]);
      var t := TakeAll(rd, s, turns[..|turns| - 1]).value;
      match turns[|turns| - 1]
      case Change(_) =>
      case Look => LookKeepsSound(rd, t);
      case Reopen => ReopenKeepsSound(rd, t);
    }
  }

  /**
   * Whatever happens to the log and however often the tailer is polled and restarted, no restart is refused,
   * and every announced decision follows a STREAM_STARTED with no discontinuity reported in between.
   */
  lemma AdviceFollowsAStart(rd: Reader, turns: seq<Turn>)
    requires Strict(rd)
    ensures var s := TakeAll(rd, UNUSED, turns);
            && s.Some?
            && Trustworthy(s.value.reported)
            && (s.value.tail.machine.state.stream.Some? ==> InStream(s.value.reported))
  {
    TurnsKeepSound(rd, UNUSED, turns);
  }

  // ----- After a broken log -----

  lemma {:induction false} ReportsOnlyGrow(rd: Reader, s: Site, turns: seq<Turn>)
    requires TakeAll(rd, s, turns).Some?
    ensures s.reported <= TakeAll(rd, s, turns).value.reported
  {
    if turns != [] {
      ReportsOnlyGrow(rd, s, turns[..|turns| - 1]);
    }
  }

  lemma {:induction false} TurnsCompose(rd: Reader, s: Site, before: seq<Turn>, after: seq<Turn>)
    requires TakeAll(rd, s, before).Some?
    ensures TakeAll(rd, s, before + after) == TakeAll(rd, TakeAll(rd, s, before).value, after)
  {
    if after == [] {
      assert before + after == before;
    } else {
      TurnsCompose(rd, s, before, after[..|after| - 1]);
      assert (before + after)[..|before + after| - 1] == before + after[..|after| - 1];
    }
  }

  /** In a trustworthy record nothing is announced between a discontinuity and the next start of a stream. */
  lemma SilentAfterBreak(es: seq<Event>, b: nat, j: nat)
    requires Trustworthy(es) && b <= j < |es| && BreaksStream(es[b]) && Advises(es[j])
    ensures exists k :: b < k < j && StartsStream(es[k])
  {
    var k: nat :| StartsAt(es[..j], k);
    assert b < j ==> es[..j][b] == es[b];
  }

  /** A poll that finds the log broken reports just that, and the report stands. */
  lemma BreakIsReported(rd: Reader, s: Site, after: seq<Turn>)
    requires s.tail.cursor.Some? && Broken(s.tail.cursor.value, s.log)
    requires TakeAll(rd, Take(rd, s, Look).value, after).Some?
    ensures s.reported + [DISCONTINUITY] <= TakeAll(rd, Take(rd, s, Look).value, after).value.reported
  {
    PollFailsClosed(rd, s.tail, s.log);
    ReportsOnlyGrow(rd, Take(rd, s, Look).value, after);
  }

  lemma LookThen(rd: Reader, before: seq<Turn>, after: seq<Turn>)
    requires TakeAll(rd, UNUSED, before).Some?
    ensures TakeAll(rd, UNUSED, before + [Look] + after)
            == TakeAll(rd, Take(rd, TakeAll(rd, UNUSED, before).value, Look).value, after)
  {
    assert (before + [Look])[..|before|] == before;
    TurnsCompose(rd, UNUSED, before + [Look], after);
  }

  /**
   * Once a poll finds the log broken, nothing is announced from then on before a new STREAM_STARTED,
   * whatever becomes of the log and however the tailer is polled and restarted.
   */
  lemma BrokenLogSilences(rd: Reader, before: seq<Turn>, after: seq<Turn>, j: nat)
    requires Strict(rd)
    requires var s := TakeAll(rd, UNUSED, before);
             s.Some? && s.value.tail.cursor.Some? && Broken(s.value.tail.cursor.value, s.value.log)
    ensures var s, later := TakeAll(rd, UNUSED, before).value, TakeAll(rd, UNUSED, before + [Look] + after);
            && later.Some?
            && (|s.reported| <= j < |later.value.reported| && Advises(later.value.reported[j])
                ==> exists k :: |s.reported| < k < j && StartsStream(later.value.reported[k]))
  {
    var s := TakeAll(rd, UNUSED, before).value;
    AdviceFollowsAStart(rd, before + [Look] + after);
    LookThen(rd, before, after);
    BreakIsReported(rd, s, after);
    var es := TakeAll(rd, UNUSED, before + [Look] + after).value.reported;
    assert es[|s.reported|] == (s.reported + [DISCONTINUITY])[|s.reported|];
    if |s.reported| <= j < |es| && Advises(es[j]) {
      SilentAfterBreak(es, |s.reported|, j);
    }
  }
}
