/** Reading an append-only log div by div, whatever handling one div means. */
module LogScan {
  import opened Common
  import opened Sequences

  /** Log content; a character stands for one byte. */
  type Bytes = string

  // ----- Searching bytes -----

  predicate OccursAt(s: Bytes, pat: Bytes, i: nat) {
    i + |pat| <= |s| && s[i..i + |pat|] == pat
  }

  /** The first occurrence of `pat`. */
  function Find(s: Bytes, pat: Bytes): (r: Option<nat>)
    ensures r.Some? ==> r.value + |pat| <= |s|
  {
    FindFrom(s, pat, 0)
  }

  function FindFrom(s: Bytes, pat: Bytes, i: nat): (r: Option<nat>)
    requires i <= |s|
    ensures r.Some? ==> r.value + |pat| <= |s|
    decreases |s| - i
  {
    if OccursAt(s, pat, i) then Some(i)
    else if i == |s| then None
    else FindFrom(s, pat, i + 1)
  }

  lemma {:induction false} FindFromIsFirst(s: Bytes, pat: Bytes, i: nat)
    requires i <= |s|
    ensures var r := FindFrom(s, pat, i);
            && (r.Some? ==> i <= r.value && OccursAt(s, pat, r.value)
                            && forall j: nat :: i <= j < r.value ==> !OccursAt(s, pat, j))
            && (r.None? ==> forall j: nat :: i <= j ==> !OccursAt(s, pat, j))
    decreases |s| - i
  {
    if !OccursAt(s, pat, i) && i < |s| {
      FindFromIsFirst(s, pat, i + 1);
    }
  }

  /** `Find` gives the first occurrence, and None exactly when there is none. */
  lemma FindIsFirst(s: Bytes, pat: Bytes)
    ensures var r := Find(s, pat);
            && (r.Some? ==> OccursAt(s, pat, r.value) && forall j: nat :: j < r.value ==> !OccursAt(s, pat, j))
            && (r.None? ==> forall j: nat :: !OccursAt(s, pat, j))
  {
    FindFromIsFirst(s, pat, 0);
  }

  lemma FindInside(s: Bytes, from: nat, pat: Bytes)
    requires from <= |s| && Find(s[from..], pat).Some?
    ensures from + Find(s[from..], pat).value + |pat| <= |s|
  {
    FindIsFirst(s[from..], pat);
  }

  /** The last occurrence of `pat` among the positions below `n`. */
  function FindLast(s: Bytes, pat: Bytes, n: nat): (r: Option<nat>)
    ensures r.Some? ==> r.value < n && OccursAt(s, pat, r.value)
                        && forall j: nat :: r.value < j < n ==> !OccursAt(s, pat, j)
    ensures r.None? ==> forall j: nat :: j < n ==> !OccursAt(s, pat, j)
  {
    if n == 0 then None
    else if OccursAt(s, pat, n - 1) then Some(n - 1)
    else FindLast(s, pat, n - 1)
  }

  /** The slice `s[lo:hi]` as the source takes it: bounds past the end are cut, crossed bounds give nothing. */
  function Slice(s: Bytes, lo: nat, hi: int): Bytes {
    var top := if hi > |s| then |s| else hi;
    if lo <= top then s[lo..top] else []
  }

  // ----- Scanning a stretch of log -----

  /** Where a scan left the machine, what it reported, and how many bytes it used up. */
  datatype Scanned<M, E> = Scanned(machine: M, events: seq<E>, consumed: nat)

  /** Handle every segment of `chunk` that a close tag completes; what follows the last one is left for later. */
  function Scan<M, E>(handle: (M, Bytes) -> (M, seq<E>), close: Bytes, m: M, chunk: Bytes): (r: Scanned<M, E>)
    requires close != []
    ensures r.consumed <= |chunk|
    decreases |chunk|
  {
    match Find(chunk, close)
    case None => Scanned(m, [], 0)
    case Some(at) =>
      var end := at + |close|;
      var (m', es) := handle(m, chunk[..end]);
      var rest := Scan(handle, close, m', chunk[end..]);
      Scanned(rest.machine, es + rest.events, end + rest.consumed)
  }

  /** `es` were reported on the way to `m` at position `scan`; the rest of `chunk` will complete `whole`. */
  ghost predicate Halfway<M(!new), E(!new)>(handle: (M, Bytes) -> (M, seq<E>), close: Bytes, whole: Scanned<M, E>,
                                chunk: Bytes, scan: nat, m: M, es: seq<E>)
    requires close != [] && scan <= |chunk|
  {
    var rest := Scan(handle, close, m, chunk[scan..]);
    whole == Scanned(rest.machine, es + rest.events, scan + rest.consumed)
  }

  lemma ScanStarts<M(!new), E(!new)>(handle: (M, Bytes) -> (M, seq<E>), close: Bytes, m: M, chunk: Bytes)
    requires close != []
    ensures Halfway(handle, close, Scan(handle, close, m, chunk), chunk, 0, m, [])
  {
    assert chunk[0..] == chunk;
    assert [] + Scan(handle, close, m, chunk).events == Scan(handle, close, m, chunk).events;
  }

  /** The next completed segment takes the scan from one position to the one behind it. */
  lemma NextSegment<M(!new), E(!new)>(handle: (M, Bytes) -> (M, seq<E>), close: Bytes, whole: Scanned<M, E>,
                          chunk: Bytes, scan: nat, m: M, es: seq<E>, at: nat)
    requires close != [] && scan <= |chunk| && Find(chunk[scan..], close) == Some(at)
    requires Halfway(handle, close, whole, chunk, scan, m, es)
    ensures scan + at + |close| <= |chunk|
    ensures var (m', more) := handle(m, chunk[scan..scan + at + |close|]);
            Halfway(handle, close, whole, chunk, scan + at + |close|, m', es + more)
  {
    var end := scan + at + |close|;
    assert chunk[scan..end] == chunk[scan..][..end - scan];
    assert chunk[end..] == chunk[scan..][end - scan..];
    var (m', more) := handle(m, chunk[scan..end]);
    var rest := Scan(handle, close, m', chunk[end..]);
    assert es + (more + rest.events) == es + more + rest.events;
  }

  lemma NoNextSegment<M(!new), E(!new)>(handle: (M, Bytes) -> (M, seq<E>), close: Bytes, whole: Scanned<M, E>,
                            chunk: Bytes, scan: nat, m: M, es: seq<E>)
    requires close != [] && scan <= |chunk| && Find(chunk[scan..], close).None?
    requires Halfway(handle, close, whole, chunk, scan, m, es)
    ensures whole == Scanned(m, es, scan)
  {
    assert es + [] == es;
  }

  /** A scan that used up nothing did nothing. */
  lemma ScanIdle<M(!new), E(!new)>(handle: (M, Bytes) -> (M, seq<E>), close: Bytes, m: M, chunk: Bytes)
    requires close != [] && Scan(handle, close, m, chunk).consumed == 0
    ensures Scan(handle, close, m, chunk) == Scanned(m, [], 0)
  {
  }

  // ----- Where the log is cut does not matter -----

  /** More bytes at the end never move the first occurrence. */
  lemma FindInLonger(s: Bytes, more: Bytes, pat: Bytes)
    requires Find(s, pat).Some?
    ensures Find(s + more, pat) == Find(s, pat)
  {
    FindIsFirst(s, pat);
    FindIsFirst(s + more, pat);
    forall j: nat | j + |pat| <= |s| ensures OccursAt(s + more, pat, j) <==> OccursAt(s, pat, j) {
      assert (s + more)[j..j + |pat|] == s[j..j + |pat|];
    }
  }

  function Scanner<M, E>(handle: (M, Bytes) -> (M, seq<E>), close: Bytes): (M, Bytes) -> Scanned<M, E>
    requires close != []
  {
    (m, chunk) => Scan(handle, close, m, chunk)
  }

  /**
   * Scanning a stretch, wherever it was cut, and later the unconsumed rest together with what was
   * appended, amounts to scanning everything at once.
   */
  ghost predicate Splits<M, E>(scan: (M, Bytes) -> Scanned<M, E>, m: M, early: Bytes, late: Bytes) {
    var first := scan(m, early);
    first.consumed <= |early| &&
    var second := scan(first.machine, (early + late)[first.consumed..]);
    scan(m, early + late) == Scanned(second.machine, first.events + second.events, first.consumed + second.consumed)
  }

  /** The scan of a chunk starts with `segment`, which takes `m` to `m'` and reports `es`. */
  ghost predicate StartsWith<M, E>(
      scan: (M, Bytes) -> Scanned<M, E>, m: M, segment: Bytes, m': M, es: seq<E>, tail: Bytes)
  {
    var rest := scan(m', tail);
    scan(m, segment + tail) == Scanned(rest.machine, es + rest.events, |segment| + rest.consumed)
  }

  lemma SplitsAfterSegment<M, E>(
      scan: (M, Bytes) -> Scanned<M, E>, m: M, segment: Bytes, m': M, es: seq<E>, tail: Bytes, late: Bytes)
    requires Splits(scan, m', tail, late)
    requires StartsWith(scan, m, segment, m', es, tail) && StartsWith(scan, m, segment, m', es, tail + late)
    ensures Splits(scan, m, segment + tail, late)
  {
    var all := segment + tail + late;
    assert all == segment + (tail + late);
    var rest := scan(m', tail);
    DropTwice(all, |segment|, rest.consumed);
    assert all[|segment|..] == tail + late;
    Reassociate(es, rest.events, scan(rest.machine, (tail + late)[rest.consumed..]).events);
  }

  /** A scan starts with its first completed segment. */
  lemma ScanFirst<M(!new), E(!new)>(handle: (M, Bytes) -> (M, seq<E>), close: Bytes, m: M, segment: Bytes, tail: Bytes)
    requires close != [] && Find(segment + tail, close).Some?
    requires |segment| == Find(segment + tail, close).value + |close|
    ensures StartsWith(Scanner(handle, close), m, segment, handle(m, segment).0, handle(m, segment).1, tail)
  {
    assert (segment + tail)[..|segment|] == segment && (segment + tail)[|segment|..] == tail;
  }

  lemma SplitsUnfinished<M(!new), E(!new)>(
      handle: (M, Bytes) -> (M, seq<E>), close: Bytes, m: M, early: Bytes, late: Bytes)
    requires close != [] && Find(early, close).None?
    ensures Splits(Scanner(handle, close), m, early, late)
  {
    DropNothing(early + late);
    PrependNothing(Scan(handle, close, m, early + late).events);
  }

  lemma SplitsSegment<M(!new), E(!new)>(
      handle: (M, Bytes) -> (M, seq<E>), close: Bytes, m: M, segment: Bytes, tail: Bytes, late: Bytes)
    requires close != [] && Find(segment + tail, close).Some?
    requires |segment| == Find(segment + tail, close).value + |close|
    requires Splits(Scanner(handle, close), handle(m, segment).0, tail, late)
    ensures Splits(Scanner(handle, close), m, segment + tail, late)
  {
    FindInLonger(segment + tail, late, close);
    Reassociate(segment, tail, late);
    ScanFirst(handle, close, m, segment, tail);
    ScanFirst(handle, close, m, segment, tail + late);
    SplitsAfterSegment(Scanner(handle, close), m, segment, handle(m, segment).0, handle(m, segment).1, tail, late);
  }

  lemma {:induction false} ScanSplits<M(!new), E(!new)>(
      handle: (M, Bytes) -> (M, seq<E>), close: Bytes, m: M, early: Bytes, late: Bytes)
    requires close != []
    ensures Splits(Scanner(handle, close), m, early, late)
    decreases |early|
  {
    var found := Find(early, close);
    if found.None? {
      SplitsUnfinished(handle, close, m, early, late);
    } else {
      var end := found.value + |close|;
      var segment, tail := early[..end], early[end..];
      ScanSplits(handle, close, handle(m, segment).0, tail, late);
      assert segment + tail == early;
      SplitsSegment(handle, close, m, segment, tail, late);
    }
  }

  lemma DropNothing<T>(s: seq<T>)
    ensures s[0..] == s
  {
  }

  lemma PrependNothing<T>(s: seq<T>)
    ensures [] + s == s
  {
  }

  lemma DropTwice<T>(s: seq<T>, a: nat, b: nat)
    requires a + b <= |s|
    ensures s[a + b..] == s[a..][b..]
  {
  }

  // ----- The events worth reporting -----

  /** The events from the last starting one onward, or all of them. */
  function Latest<E>(starts: E -> bool, es: seq<E>): seq<E> {
    if es == [] then []
    else if starts(es[|es| - 1]) then [es[|es| - 1]]
    else Latest(starts, es[..|es| - 1]) + [es[|es| - 1]]
  }

  lemma LatestAppend<E>(starts: E -> bool, es: seq<E>, more: seq<E>)
    requires |more| <= 1
    ensures Latest(starts, es + more)
            == if more == [] then Latest(starts, es)
               else if starts(more[0]) then more
               else Latest(starts, es) + more
  {
    if more == [] {
      assert es + more == es;
    } else {
      assert (es + more)[..|es|] == es && more == [more[0]];
    }
  }

  /** One turn of the reading loop: the next segment is handled, and a starting event forgets the earlier ones. */
  lemma ReadOne<M(!new), E(!new)>(
      handle: (M, Bytes) -> (M, seq<E>), close: Bytes, whole: Scanned<M, E>, starts: E -> bool,
      chunk: Bytes, scan: nat, m: M, es: seq<E>, at: nat, m': M, more: seq<E>)
    requires close != [] && scan <= |chunk| && Find(chunk[scan..], close) == Some(at)
    requires Halfway(handle, close, whole, chunk, scan, m, es)
    requires scan + at + |close| <= |chunk| ==> handle(m, chunk[scan..scan + at + |close|]) == (m', more)
    requires |more| <= 1
    ensures scan + at + |close| <= |chunk|
    ensures Halfway(handle, close, whole, chunk, scan + at + |close|, m', es + more)
    ensures Latest(starts, es + more)
            == if more == [] then Latest(starts, es)
               else if starts(more[0]) then more
               else Latest(starts, es) + more
  {
    NextSegment(handle, close, whole, chunk, scan, m, es, at);
    LatestAppend(starts, es, more);
  }

  /** Trimming piecewise and then again is trimming once. */
  lemma {:induction false} LatestOfParts<E>(starts: E -> bool, a: seq<E>, b: seq<E>)
    ensures Latest(starts, Latest(starts, a) + Latest(starts, b)) == Latest(starts, a + b)
    decreases |b|
  {
    var la, lb := Latest(starts, a), Latest(starts, b);
    if b == [] {
      assert a + b == a && la + lb == la;
      LatestIdempotent(starts, a);
    } else {
      var front, last := b[..|b| - 1], [b[|b| - 1]];
      var lf := Latest(starts, front);
      assert a + b == a + front + last && b == front + last;
      LatestAppend(starts, a + front, last);
      if starts(last[0]) {
        LatestAppend(starts, la, last);
      } else {
        LatestOfParts(starts, a, front);
        LatestAppend(starts, la + lf, last);
        assert la + lb == la + lf + last;
      }
    }
  }

  /** Only what trimming leaves matters to later trimming. */
  lemma LatestCongruent<E>(starts: E -> bool, a: seq<E>, a': seq<E>, b: seq<E>)
    requires Latest(starts, a') == Latest(starts, a)
    ensures Latest(starts, a' + Latest(starts, b)) == Latest(starts, a + b)
  {
    LatestOfParts(starts, a', Latest(starts, b));
    LatestIdempotent(starts, b);
    LatestOfParts(starts, a, b);
  }

  lemma {:induction false} LatestIdempotent<E>(starts: E -> bool, a: seq<E>)
    ensures Latest(starts, Latest(starts, a)) == Latest(starts, a)
  {
    if a != [] {
      var front, last := a[..|a| - 1], [a[|a| - 1]];
      LatestIdempotent(starts, front);
      LatestAppend(starts, Latest(starts, front), last);
      LatestAppend(starts, [], last);
      assert [] + last == last;
    }
  }
}
