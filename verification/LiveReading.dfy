/** What the tailer makes of the log: which frames it finds, and when the advice it holds is current. */
module LiveReading {
  import opened Common
  import opened LiveMachine
  import opened LiveRuns
  import opened LivePersist
  import opened LiveAdvice
  import opened LogScan
  import opened LiveTail
  import opened LiveSchedule
  import opened LiveDiscontinuity

  // ----- The advice held is the advice last reported -----

  function Advising(d: Decision): Event -> bool {
    (e: Event) => Advises(e) && e.decision == Some(d)
  }

  predicate IsStale(e: Event) {
    e.status == REJECTED_STALE
  }

  ghost predicate Holds(m: Machine, es: seq<Event>, d: Decision) {
    m.state.decision == Some(d) <==> Stands(es, Advising(d), IsStale)
  }

  /** A frame that cannot be decoded, or whose record makes the machine raise, is reported and costs the advice. */
  lemma BadFrameCostsAdvice(rd: Reader, m: Machine, frame: Bytes)
    requires rd.decode(frame).None? || EventOf(rd.setting, m, [Accept(rd.decode(frame).value)], 0).None?
    ensures var (m', e) := HandleFrame(rd, m, frame);
            && e.status == REJECTED_MALFORMED && m'.state == m.state.(decision := None)
            && (rd.decode(frame).None? ==> m'.drawn == m.drawn)
  {
  }

  lemma SegmentHolds(rd: Reader, m: Machine, segment: Bytes, es: seq<Event>, d: Decision)
    requires Strict(rd) && Consistent(rd.setting.compatibility, m.state) && Holds(m, es, d)
    ensures var (m', more) := HandleSegment(rd, m, segment); Holds(m', es + more, d)
  {
    var (m', more) := HandleSegment(rd, m, segment);
    if more == [] {
      assert es + more == es;
    } else {
      StandsStep(es, more[0], Advising(d), IsStale);
      assert more == [more[0]];
      var r := rd.decode(FrameOf(segment).value);
      if r.Some? {
        StepDecides(rd.setting, m, Accept(r.value));
      }
    }
    hide Stands, Consistent;
  }

  lemma {:induction false} ScanHolds(rd: Reader, m: Machine, chunk: Bytes, es: seq<Event>, d: Decision)
    requires Strict(rd) && Consistent(rd.setting.compatibility, m.state) && Holds(m, es, d)
    ensures var scanned := ScanDivs(rd, m, chunk); Holds(scanned.machine, es + scanned.events, d)
    decreases |chunk|
  {
    var found := Find(chunk, TEXT_DIV_CLOSE);
    if found.None? {
      assert es + [] == es;
    } else {
      var end := found.value + |TEXT_DIV_CLOSE|;
      var (m', more) := HandleSegment(rd, m, chunk[..end]);
      SegmentConsistent(rd, m, chunk[..end]);
      SegmentHolds(rd, m, chunk[..end], es, d);
      ScanHolds(rd, m', chunk[end..], es + more, d);
      var rest := ScanDivs(rd, m', chunk[end..]);
      assert es + (more + rest.events) == es + more + rest.events;
    }
    hide Stands, Consistent, HandleSegment;
  }

  /** What trimming drops no longer stands anyway. */
  lemma {:induction false} TrimmedStands(es: seq<Event>, more: seq<Event>, d: Decision)
    ensures Stands(es + Latest(StartsStream, more), Advising(d), IsStale) <==> Stands(es + more, Advising(d), IsStale)
  {
    if more != [] {
      var front, last := more[..|more| - 1], more[|more| - 1];
      var kept := Latest(StartsStream, front);
      TrimmedStands(es, front, d);
      assert es + more == es + front + [last];
      StandsStep(es + front, last, Advising(d), IsStale);
      StandsStep(es + kept, last, Advising(d), IsStale);
      StandsStep(es, last, Advising(d), IsStale);
      assert !StartsStream(last) ==> es + (kept + [last]) == es + kept + [last];
      hide Stands;
    }
  }

  lemma LookHolds(rd: Reader, s: Site, d: Decision)
    requires Strict(rd) && Sound(rd, s) && Holds(s.tail.machine, s.reported, d)
    ensures var s' := Take(rd, s, Look).value; Holds(s'.tail.machine, s'.reported, d)
  {
    hide Stands;
    var t := s.tail;
    if t.cursor.Some? && Broken(t.cursor.value, s.log) {
      PollFailsClosed(rd, t, s.log);
      StandsStep(s.reported, DISCONTINUITY, Advising(d), IsStale);
    } else if s.log.None? {
      assert s.reported + [] == s.reported;
    } else {
      var from := if t.cursor.Some? then t.cursor.value.offset else 0;
      var chunk := s.log.value.bytes[from..];
      ScanHolds(rd, t.machine, chunk, s.reported, d);
      TrimmedStands(s.reported, ScanDivs(rd, t.machine, chunk).events, d);
    }
  }

  /**
   * Whatever happens to the log and however often the tailer is polled and restarted: it holds the decision
   * `d` exactly if it has reported `d` and has reported nothing since but records that came too late.
   */
  lemma {:induction false} AdviceIsAsReported(rd: Reader, turns: seq<Turn>, d: Decision)
    requires Strict(rd)
    ensures var s := TakeAll(rd, UNUSED, turns);
            s.Some? && Holds(s.value.tail.machine, s.value.reported, d)
  {
    TurnsKeepSound(rd, UNUSED, turns);
    if turns != [] {
      var before := turns[..|turns| - 1];
      AdviceIsAsReported(rd, before, d);
      TurnsKeepSound(rd, UNUSED, before);
      var s := TakeAll(rd, UNUSED, before).value;
      match turns[|turns| - 1]
      case Change(_) =>
      case Look => LookHolds(rd, s, d);
      case Reopen => RoundTripIffConsistent(rd.setting.compatibility, s.tail.machine.state);
    }
  }

  // ----- Which frames are found -----

  function InDiv(text: Bytes): Bytes {
    "<div class=\"text\">" + text + "</div>"
  }

  lemma TagAt(s: Bytes, pat: Bytes, j: nat, i: nat)
    requires i < |pat|
    ensures OccursAt(s, pat, j) ==> s[j + i] == pat[i]
  {
    if OccursAt(s, pat, j) {
      assert s[j + i] == s[j..j + |pat|][i];
    }
  }

  lemma OccursInFront(s: Bytes, more: Bytes, pat: Bytes, j: nat)
    requires j + |pat| <= |s|
    ensures OccursAt(s + more, pat, j) <==> OccursAt(s, pat, j)
  {
    assert (s + more)[j..j + |pat|] == s[j..j + |pat|];
  }

  /** Within a div only the tags hold an angle bracket. */
  lemma InDivAt(text: Bytes, i: nat)
    requires '<' !in text && i < |TEXT_DIV_OPEN| + |text|
    ensures InDiv(text)[i] == '<' <==> i == 0
    ensures i == 0 ==> InDiv(text)[i + 1] == 'd'
  {
    if i >= |TEXT_DIV_OPEN| {
      assert InDiv(text)[i] == text[i - |TEXT_DIV_OPEN|];
    } else {
      assert InDiv(text)[i] == TEXT_DIV_OPEN[i];
    }
  }

  lemma CloseComesLast(junk: Bytes, text: Bytes, rest: Bytes, j: nat)
    requires Find(junk, TEXT_DIV_CLOSE).None? && '<' !in text
    requires j < |junk| + |TEXT_DIV_OPEN| + |text|
    ensures !OccursAt(junk + InDiv(text) + rest, TEXT_DIV_CLOSE, j)
  {
    var s := junk + InDiv(text) + rest;
    if j + |TEXT_DIV_CLOSE| <= |junk| {
      FindIsFirst(junk, TEXT_DIV_CLOSE);
      assert !OccursAt(junk, TEXT_DIV_CLOSE, j);
      OccursInFront(junk, InDiv(text) + rest, TEXT_DIV_CLOSE, j);
      assert s == junk + (InDiv(text) + rest);
    } else if j < |junk| {
      InDivAt(text, 0);
      TagAt(s, TEXT_DIV_CLOSE, j, |junk| - j);
      assert s[|junk|] == InDiv(text)[0];
    } else {
      InDivAt(text, j - |junk|);
      TagAt(s, TEXT_DIV_CLOSE, j, 0);
      TagAt(s, TEXT_DIV_CLOSE, j, 1);
      assert s[j] == InDiv(text)[j - |junk|] && s[j + 1] == InDiv(text)[j + 1 - |junk|];
    }
    hide OccursAt, Find, InDiv;
  }

  lemma CloseIsFound(junk: Bytes, text: Bytes, rest: Bytes)
    requires Find(junk, TEXT_DIV_CLOSE).None? && '<' !in text
    ensures Find(junk + InDiv(text) + rest, TEXT_DIV_CLOSE) == Some(|junk| + |TEXT_DIV_OPEN| + |text|)
  {
    var s, at := junk + InDiv(text) + rest, |junk| + |TEXT_DIV_OPEN| + |text|;
    assert s[at..at + |TEXT_DIV_CLOSE|] == TEXT_DIV_CLOSE;
    assert OccursAt(s, TEXT_DIV_CLOSE, at);
    FindIsFirst(s, TEXT_DIV_CLOSE);
    if Find(s, TEXT_DIV_CLOSE).value < at {
      CloseComesLast(junk, text, rest, Find(s, TEXT_DIV_CLOSE).value);
    }
    hide OccursAt, Find;
  }

  /** Whatever stands before it in its segment, the innermost div is the one that is read. */
  lemma DivIsRead(junk: Bytes, text: Bytes)
    requires '<' !in text
    ensures DivText(junk + InDiv(text)) == Some(text)
  {
    var s := junk + InDiv(text);
    assert s[|junk|..|junk| + |TEXT_DIV_OPEN|] == TEXT_DIV_OPEN;
    assert OccursAt(s, TEXT_DIV_OPEN, |junk|);
    var i := FindLast(s, TEXT_DIV_OPEN, |s|).value;
    OpenComesFirst(junk, text, i);
    assert s[|junk| + |TEXT_DIV_OPEN|..|s| - |TEXT_DIV_CLOSE|] == text;
    hide OccursAt, FindLast, InDiv;
  }

  lemma OpenComesFirst(junk: Bytes, text: Bytes, i: nat)
    requires '<' !in text && OccursAt(junk + InDiv(text), TEXT_DIV_OPEN, i)
    ensures i <= |junk|
  {
    var s := junk + InDiv(text);
    TagAt(s, TEXT_DIV_OPEN, i, 0);
    if |junk| < i < |junk| + |TEXT_DIV_OPEN| + |text| {
      InDivAt(text, i - |junk|);
    }
    hide InDiv;
  }

  /** The machine after a div's text was read, and what was reported: only frames are handled. */
  function ReadText(rd: Reader, m: Machine, text: Bytes): (Machine, seq<Event>) {
    if "BBAGENT1|" <= text then var (m', e) := HandleFrame(rd, m, text); (m', [e]) else (m, [])
  }

  /**
   * A div is read as soon as its close tag is there, whatever was left open before it: a frame in it is
   * handled once, anything else is skipped, and reading goes on right behind the tag.
   */
  lemma DivIsHandled(rd: Reader, m: Machine, junk: Bytes, text: Bytes, rest: Bytes)
    requires Find(junk, TEXT_DIV_CLOSE).None? && '<' !in text
    ensures var (m', es) := ReadText(rd, m, text);
            var more := ScanDivs(rd, m', rest);
            ScanDivs(rd, m, junk + InDiv(text) + rest)
            == Scanned(more.machine, es + more.events, |junk + InDiv(text)| + more.consumed)
  {
    var segment := junk + InDiv(text);
    CloseIsFound(junk, text, rest);
    ScanFirst(Handler(rd), TEXT_DIV_CLOSE, m, segment, rest);
    DivIsRead(junk, text);
    assert OccursAt(text, FRAME_PREFIX, 0) <==> FRAME_PREFIX <= text;
  }

  // ----- Polling what has not changed, or has -----

  /** Reading stops where nothing more can be read. */
  lemma NothingIsLeft(rd: Reader, m: Machine, chunk: Bytes)
    ensures var scanned := ScanDivs(rd, m, chunk);
            ScanDivs(rd, scanned.machine, chunk[scanned.consumed..]) == Scanned(scanned.machine, [], 0)
  {
    var scanned := ScanDivs(rd, m, chunk);
    ScanSplits(Handler(rd), TEXT_DIV_CLOSE, m, chunk, []);
    assert chunk + [] == chunk;
    IdleDivs(rd, scanned.machine, chunk[scanned.consumed..]);
  }

  lemma OwnCursorFits(file: LogFile, offset: nat)
    requires offset <= |file.bytes|
    ensures !Broken(CursorForOffset(file, offset), Some(file)) && CursorForOffset(file, offset).offset == offset
  {
  }

  /** The cursor fits the log, and nothing behind it can be read. */
  ghost predicate ReadUp(rd: Reader, m: Machine, cur: Cursor, file: LogFile) {
    !Broken(cur, Some(file)) && ScanDivs(rd, m, file.bytes[cur.offset..]) == Scanned(m, [], 0)
  }

  lemma EndIsReadUp(rd: Reader, m: Machine, file: LogFile)
    ensures ReadUp(rd, m, CursorForOffset(file, |file.bytes|), file)
  {
    OwnCursorFits(file, |file.bytes|);
    assert file.bytes[|file.bytes|..] == [];
    hide CursorForOffset, Broken;
  }

  lemma ScannedIsReadUp(rd: Reader, m: Machine, from: nat, file: LogFile)
    requires from <= |file.bytes|
    ensures var scanned := ScanDivs(rd, m, file.bytes[from..]);
            && ReadUp(rd, scanned.machine, CursorForOffset(file, from + scanned.consumed), file)
            && (scanned.consumed == 0 ==> scanned == Scanned(m, [], 0))
  {
    var scanned := ScanDivs(rd, m, file.bytes[from..]);
    NothingIsLeft(rd, m, file.bytes[from..]);
    DropTwice(file.bytes, from, scanned.consumed);
    OwnCursorFits(file, from + scanned.consumed);
    if scanned.consumed == 0 {
      IdleDivs(rd, m, file.bytes[from..]);
    }
    hide CursorForOffset, Broken, ScanDivs;
  }

  lemma IdlePoll(rd: Reader, t: Tail, file: LogFile)
    requires t.cursor.Some? && ReadUp(rd, t.machine, t.cursor.value, file)
    ensures PollStep(rd, t, Some(file)) == (t, [])
  {
    hide ScanDivs, AnchorMatches;
  }

  lemma PollReadsUp(rd: Reader, t: Tail, file: LogFile)
    ensures var t' := PollStep(rd, t, Some(file)).0;
            t'.cursor.Some? && ReadUp(rd, t'.machine, t'.cursor.value, file)
  {
    var cur := if t.cursor.Some? then t.cursor.value else Cursor(file.identity, 0, 0, ByteDigest([]));
    if Broken(cur, Some(file)) {
      EndIsReadUp(rd, Apply(rd.setting, t.machine, LoseLog).0, file);
      hide ReadUp;
    } else {
      ScannedIsReadUp(rd, t.machine, cur.offset, file);
    }
    hide CursorForOffset, AnchorMatches, Stores, Apply, ScanDivs;
  }

  /** Polling again a log that has not changed reports nothing and changes nothing. */
  lemma PollTwice(rd: Reader, t: Tail, file: LogFile)
    ensures var t' := PollStep(rd, t, Some(file)).0; PollStep(rd, t', Some(file)) == (t', [])
  {
    hide PollStep, ReadUp;
    PollReadsUp(rd, t, file);
    IdlePoll(rd, PollStep(rd, t, Some(file)).0, file);
  }

  /** Some byte of the last 256 that had been read is not what it was. */
  ghost predicate Rewritten(was: Bytes, now: Bytes, offset: nat)
    requires offset <= |was| && offset <= |now|
  {
    exists i :: 0 <= i < offset && offset - 256 <= i && was[i] != now[i]
  }

  /** A cursor tells the log it was taken from by its file, its length, and the last 256 bytes read. */
  lemma CursorTells(file: LogFile, offset: nat, now: LogFile)
    requires offset <= |file.bytes|
    ensures Broken(CursorForOffset(file, offset), Some(now))
            <==> || now.identity != file.identity
                 || |now.bytes| < offset
                 || Rewritten(file.bytes, now.bytes, offset)
  {
    if offset <= |now.bytes| {
      var start := CursorForOffset(file, offset).anchorStart;
      SliceDiffers(file.bytes, now.bytes, start, offset);
    }
    hide Slice;
  }

  lemma SliceDiffers(s: Bytes, t: Bytes, lo: nat, hi: nat)
    requires lo <= hi <= |s| && hi <= |t|
    ensures Slice(s, lo, hi) != Slice(t, lo, hi) <==> exists i :: lo <= i < hi && s[i] != t[i]
  {
    var past, present := s[lo..hi], t[lo..hi];
    assert forall i :: lo <= i < hi ==> s[i] == past[i - lo] && t[i] == present[i - lo];
    if past != present {
      var i :| 0 <= i < |past| && past[i] != present[i];
      assert s[lo + i] != t[lo + i];
    }
  }
}
