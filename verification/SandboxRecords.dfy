/** From collected chunks to records, and from records to an accepted generation. */
module SandboxRecords {
  import opened Common
  import opened Sequences
  import opened CombatSandbox

  /** A JSON field, as far as the manifest checks look at it. */
  datatype Field = Absent | Strings(values: seq<string>) | Number(value: int) | Other

  /** The payload object of a record, or `NoObject` when it is anything else. */
  datatype Payload =
    | NoObject
    | Object(expectedRecords: Field, expectedShards: Field, expectedCount: Field, records: Field)

  datatype Record = Record(section: Option<string>, key: Option<string>, payload: Payload)

  /** Encoded text, expected length and digest to record; `None` for every decoding error. */
  type Decoder = (string, nat, string) -> Option<Record>

  type Records = map<string, Record>

  function RecordId(k: SlotKey): string {
    k.section + ":" + k.key
  }

  // ----- One record -----

  predicate Whole(slot: Slot) {
    |slot.chunks| == slot.count && forall i :: 0 <= i < slot.count ==> i in slot.chunks
  }

  /** The first `n` chunks, in index order. */
  function Joined(chunks: map<nat, string>, n: nat): string
    requires forall i :: 0 <= i < n ==> i in chunks
  {
    if n == 0 then "" else Joined(chunks, n - 1) + chunks[n - 1]
  }

  function SlotRecord(decode: Decoder, k: SlotKey, slot: Slot): Option<Record> {
    if !Whole(slot) then None
    else match decode(Joined(slot.chunks, slot.count), slot.length, slot.digest)
      case None => None
      case Some(r) => if r.section == Some(k.section) && r.key == Some(k.key) then Some(r) else None
  }

  /** The records of the slots in the given order; a later one replaces an earlier one of the same id. */
  function RecordsOf(decode: Decoder, order: seq<SlotKey>, slots: map<SlotKey, Slot>): Option<Records> {
    if order == [] then Some(map[])
    else
      var k := order[|order| - 1];
      match RecordsOf(decode, order[..|order| - 1], slots)
      case None => None
      case Some(records) =>
        if k !in slots then None
        else match SlotRecord(decode, k, slots[k])
          case None => None
          case Some(r) => Some(records[RecordId(k) := r])
  }

  /** The slot is there, whole, and decodes to a record of its own section and key. */
  predicate Decodes(decode: Decoder, k: SlotKey, slots: map<SlotKey, Slot>) {
    k in slots && SlotRecord(decode, k, slots[k]).Some?
  }

  lemma {:induction false} RecordsDecode(decode: Decoder, order: seq<SlotKey>, slots: map<SlotKey, Slot>)
    ensures RecordsOf(decode, order, slots).Some? <==> forall k :: k in order ==> Decodes(decode, k, slots)
  {
    if order != [] {
      var front, last := order[..|order| - 1], order[|order| - 1];
      RecordsDecode(decode, front, slots);
      assert last in order && forall k :: k in order <==> k in front || k == last;
      assert RecordsOf(decode, order, slots).Some?
        <==> RecordsOf(decode, front, slots).Some? && Decodes(decode, last, slots);
    }
  }

  ghost predicate RecordOfSome(decode: Decoder, order: seq<SlotKey>, slots: map<SlotKey, Slot>, id: string, r: Record) {
    exists k :: k in order && k in slots && RecordId(k) == id && SlotRecord(decode, k, slots[k]) == Some(r)
  }

  lemma {:induction false} RecordsFound(decode: Decoder, order: seq<SlotKey>, slots: map<SlotKey, Slot>)
    requires RecordsOf(decode, order, slots).Some?
    ensures forall k :: k in order ==> RecordId(k) in RecordsOf(decode, order, slots).value
    ensures forall id :: id in RecordsOf(decode, order, slots).value ==>
              RecordOfSome(decode, order, slots, id, RecordsOf(decode, order, slots).value[id])
  {
    if order != [] {
      var front, last := order[..|order| - 1], order[|order| - 1];
      RecordsFound(decode, front, slots);
      assert last in order && forall k :: k in order <==> k in front || k == last;
      var records, before := RecordsOf(decode, order, slots).value, RecordsOf(decode, front, slots).value;
      forall id | id in records ensures RecordOfSome(decode, order, slots, id, records[id]) {
        if id != RecordId(last) {
          assert RecordOfSome(decode, front, slots, id, before[id]);
        }
      }
    }
  }

  /** `r` is what the chunks of the slot spell out, joined in index order, and it names the slot's section and key. */
  ghost predicate Spells(decode: Decoder, k: SlotKey, slots: map<SlotKey, Slot>, r: Record) {
    && k in slots && Whole(slots[k])
    && decode(Joined(slots[k].chunks, slots[k].count), slots[k].length, slots[k].digest) == Some(r)
    && r.section == Some(k.section) && r.key == Some(k.key)
  }

  /** Nothing listed after index `i` has the same record id. */
  ghost predicate LastOfItsId(order: seq<SlotKey>, i: nat)
    requires i < |order|
  {
    forall j :: i < j < |order| ==> RecordId(order[j]) != RecordId(order[i])
  }

  /** Every slot listed spells out a record, and under each id stands the record of the last slot with it. */
  ghost predicate AreRecords(decode: Decoder, order: seq<SlotKey>, slots: map<SlotKey, Slot>, records: Records) {
    && (forall k :: k in order ==> exists r :: Spells(decode, k, slots, r))
    && (forall k :: k in order ==> RecordId(k) in records)
    && (forall id :: id in records ==> exists i :: 0 <= i < |order| && RecordId(order[i]) == id)
    && (forall i :: 0 <= i < |order| && LastOfItsId(order, i) ==>
          RecordId(order[i]) in records && Spells(decode, order[i], slots, records[RecordId(order[i])]))
  }

  lemma SpellsIff(decode: Decoder, k: SlotKey, slots: map<SlotKey, Slot>, r: Record)
    ensures Spells(decode, k, slots, r) <==> k in slots && SlotRecord(decode, k, slots[k]) == Some(r)
  {
  }

  lemma RecordsAreRecords(decode: Decoder, order: seq<SlotKey>, slots: map<SlotKey, Slot>)
    requires RecordsOf(decode, order, slots).Some?
    ensures AreRecords(decode, order, slots, RecordsOf(decode, order, slots).value)
  {
    var records := RecordsOf(decode, order, slots).value;
    RecordsDecode(decode, order, slots);
    RecordsFound(decode, order, slots);
    forall k | k in order ensures exists r :: Spells(decode, k, slots, r) {
      assert Decodes(decode, k, slots);
      SpellsIff(decode, k, slots, SlotRecord(decode, k, slots[k]).value);
    }
    forall id | id in records ensures exists i :: 0 <= i < |order| && RecordId(order[i]) == id {
      assert RecordOfSome(decode, order, slots, id, records[id]);
      var k :| k in order && k in slots && RecordId(k) == id;
      var i :| 0 <= i < |order| && order[i] == k;
    }
    forall i | 0 <= i < |order| && LastOfItsId(order, i)
      ensures RecordId(order[i]) in records && Spells(decode, order[i], slots, records[RecordId(order[i])])
    {
      LastDecides(decode, order, slots, i);
      SpellsIff(decode, order[i], slots, records[RecordId(order[i])]);
    }
  }

  lemma {:induction false} LastDecides(decode: Decoder, order: seq<SlotKey>, slots: map<SlotKey, Slot>, i: nat)
    requires RecordsOf(decode, order, slots).Some? && i < |order| && LastOfItsId(order, i)
    ensures order[i] in slots && RecordId(order[i]) in RecordsOf(decode, order, slots).value
    ensures var record := RecordsOf(decode, order, slots).value[RecordId(order[i])];
            SlotRecord(decode, order[i], slots[order[i]]) == Some(record)
  {
    if i < |order| - 1 {
      var front := order[..|order| - 1];
      assert forall j :: i < j < |front| ==> front[j] == order[j];
      LastDecides(decode, front, slots, i);
      assert RecordId(order[|order| - 1]) != RecordId(order[i]);
    }
  }

  /** Some index is the last one with the id of a listed slot. */
  lemma {:induction false} LastExists(order: seq<SlotKey>, i: nat) returns (last: nat)
    requires i < |order|
    ensures i <= last < |order| && RecordId(order[last]) == RecordId(order[i]) && LastOfItsId(order, last)
    decreases |order| - i
  {
    if LastOfItsId(order, i) {
      last := i;
    } else {
      var j :| i < j < |order| && RecordId(order[j]) == RecordId(order[i]);
      last := LastExists(order, j);
    }
  }

  lemma RecordsUnique(decode: Decoder, order: seq<SlotKey>, slots: map<SlotKey, Slot>, x: Records, y: Records)
    requires AreRecords(decode, order, slots, x) && AreRecords(decode, order, slots, y)
    ensures x == y
  {
    forall id | id in x ensures id in y && x[id] == y[id] {
      var i :| 0 <= i < |order| && RecordId(order[i]) == id;
      var last := LastExists(order, i);
    }
    forall id | id in y ensures id in x {
      var i :| 0 <= i < |order| && RecordId(order[i]) == id;
      assert order[i] in order;
    }
    assert x == y;
  }

  /** What the fold over the slots computes. */
  lemma RecordsIff(decode: Decoder, order: seq<SlotKey>, slots: map<SlotKey, Slot>, records: Records)
    ensures RecordsOf(decode, order, slots) == Some(records) <==> AreRecords(decode, order, slots, records)
  {
    if RecordsOf(decode, order, slots).Some? {
      RecordsAreRecords(decode, order, slots);
      if AreRecords(decode, order, slots, records) {
        RecordsUnique(decode, order, slots, records, RecordsOf(decode, order, slots).value);
      }
    } else if AreRecords(decode, order, slots, records) {
      forall k | k in order ensures Decodes(decode, k, slots) {
        var x :| Spells(decode, k, slots, x);
      }
      RecordsDecode(decode, order, slots);
      assert false;
    }
  }

  // ----- The manifest -----

  /** The record ids listed by the shards, in order; `None` if a shard is missing or not a listing. */
  function ShardRecords(records: Records, shards: seq<string>): Option<seq<string>> {
    if shards == [] then Some([])
    else match ShardRecords(records, shards[..|shards| - 1])
      case None => None
      case Some(front) =>
        var id := shards[|shards| - 1];
        if id in records && records[id].payload.Object? && records[id].payload.records.Strings?
        then Some(front + records[id].payload.records.values)
        else None
  }

  predicate AllDifferent(xs: seq<string>) {
    forall i, j :: 0 <= i < j < |xs| ==> xs[i] != xs[j]
  }

  /** Record `id` is a shard, and lists the record ids `ids`. */
  ghost predicate IsShard(records: Records, id: string, ids: seq<string>) {
    id in records && records[id].payload.Object? && records[id].payload.records == Strings(ids)
  }

  /** The shards are all there, and list `listings`, one after the other. */
  ghost predicate Gathers(records: Records, shards: seq<string>, listings: seq<seq<string>>) {
    |listings| == |shards| && forall i :: 0 <= i < |shards| ==> IsShard(records, shards[i], listings[i])
  }

  /** The shards are all there, and what they list comes to `expected`. */
  ghost predicate GathersTo(records: Records, shards: seq<string>, expected: seq<string>) {
    exists listings :: Gathers(records, shards, listings) && expected == Concat(listings)
  }

  /**
   * What a manifest expects: the records it lists itself; or, if it lists none, the concatenation of what
   * its shards list, as many as it announces and none of them twice.
   */
  ghost predicate Expects(records: Records, manifest: Record, expected: seq<string>) {
    && manifest.payload.Object?
    && (|| manifest.payload.expectedRecords == Strings(expected)
        || (&& manifest.payload.expectedRecords.Absent? && manifest.payload.expectedShards.Strings?
            && manifest.payload.expectedCount == Number(|expected|) && AllDifferent(expected)
            && GathersTo(records, manifest.payload.expectedShards.values, expected)))
  }

  lemma GathersOneMore(records: Records, shards: seq<string>, before: seq<string>, id: string, ids: seq<string>)
    requires GathersTo(records, shards, before) && IsShard(records, id, ids)
    ensures GathersTo(records, shards + [id], before + ids)
  {
    var listings :| Gathers(records, shards, listings) && before == Concat(listings);
    ConcatSnoc(listings, ids);
    assert Gathers(records, shards + [id], listings + [ids]);
  }

  lemma GathersOneLess(records: Records, shards: seq<string>, id: string, expected: seq<string>)
    returns (before: seq<string>, ids: seq<string>)
    requires GathersTo(records, shards + [id], expected)
    ensures GathersTo(records, shards, before) && IsShard(records, id, ids) && expected == before + ids
  {
    var listings :| Gathers(records, shards + [id], listings) && expected == Concat(listings);
    var front := listings[..|shards|];
    before, ids := Concat(front), listings[|shards|];
    assert (shards + [id])[|shards|] == id;
    assert forall i :: 0 <= i < |shards| ==> (shards + [id])[i] == shards[i];
    assert Gathers(records, shards, front);
  }

  lemma {:induction false} ShardsGather(records: Records, shards: seq<string>, expected: seq<string>)
    ensures ShardRecords(records, shards) == Some(expected) <==> GathersTo(records, shards, expected)
  {
    if shards == [] {
      assert Gathers(records, shards, []) && Concat<string>([]) == [];
    } else {
      var front, id := shards[..|shards| - 1], shards[|shards| - 1];
      assert shards == front + [id];
      if ShardRecords(records, shards) == Some(expected) {
        var before := ShardRecords(records, front).value;
        ShardsGather(records, front, before);
        GathersOneMore(records, front, before, id, records[id].payload.records.values);
      }
      if GathersTo(records, shards, expected) {
        var before, ids := GathersOneLess(records, front, id, expected);
        ShardsGather(records, front, before);
      }
    }
  }

  function ExpectedRecords(records: Records, manifest: Record): Option<seq<string>> {
    match manifest.payload
    case NoObject => None
    case Object(direct, shards, count, _) =>
      if direct.Strings? then Some(direct.values)
      else if !direct.Absent? || !shards.Strings? || !count.Number? || count.value < 0 then None
      else match ShardRecords(records, shards.values)
        case None => None
        case Some(expected) => if |expected| == count.value && AllDifferent(expected) then Some(expected) else None
  }

  lemma ExpectsIff(records: Records, manifest: Record, expected: seq<string>)
    ensures ExpectedRecords(records, manifest) == Some(expected) <==> Expects(records, manifest, expected)
  {
    if manifest.payload.Object? && manifest.payload.expectedShards.Strings? {
      ShardsGather(records, manifest.payload.expectedShards.values, expected);
    }
  }

  method ManifestExpectedRecords(records: Records, manifest: Record) returns (r: Option<seq<string>>)
    ensures r == ExpectedRecords(records, manifest)
    ensures forall expected :: r == Some(expected) <==> Expects(records, manifest, expected)
  {
    forall expected
      ensures ExpectedRecords(records, manifest) == Some(expected) <==> Expects(records, manifest, expected)
    {
      ExpectsIff(records, manifest, expected);
    }
    if manifest.payload.NoObject? {
      return None;
    }
    var payload := manifest.payload;
    if payload.expectedRecords.Strings? {
      return Some(payload.expectedRecords.values);
    }
    if !payload.expectedRecords.Absent? || !payload.expectedShards.Strings?
       || !payload.expectedCount.Number? || payload.expectedCount.value < 0 {
      return None;
    }
    var shards := payload.expectedShards.values;
    var expected: seq<string> := [];
    for i := 0 to |shards|
      invariant ShardRecords(records, shards[..i]) == Some(expected)
    {
      assert shards[..i + 1][..i] == shards[..i];
      var id := shards[i];
      if id !in records || !records[id].payload.Object? || !records[id].payload.records.Strings? {
        ShardsFail(records, shards, i + 1);
        return None;
      }
      expected := expected + records[id].payload.records.values;
    }
    assert shards[..|shards|] == shards;
    r := if |expected| == payload.expectedCount.value && AllDifferent(expected) then Some(expected) else None;
  }

  lemma {:induction false} ShardsFail(records: Records, shards: seq<string>, i: nat)
    requires i <= |shards| && ShardRecords(records, shards[..i]) == None
    ensures ShardRecords(records, shards) == None
    decreases |shards| - i
  {
    if i == |shards| {
      assert shards[..i] == shards;
    } else {
      assert shards[..i + 1][..i] == shards[..i];
      ShardsFail(records, shards, i + 1);
    }
  }

  const MANIFEST := "manifest:root"

  /** The manifest is there and everything it expects is, too. */
  predicate Complete(records: Records) {
    && MANIFEST in records
    && ExpectedRecords(records, records[MANIFEST]).Some?
    && forall id :: id in ExpectedRecords(records, records[MANIFEST]).value ==> id in records
  }

  function Assemble(decode: Decoder, group: Group): Option<Records> {
    match RecordsOf(decode, group.order, group.slots)
    case None => None
    case Some(records) => if Complete(records) then Some(records) else None
  }

  /**
   * What it takes for a generation to assemble, and to what: every slot spells out its record, the manifest
   * is there, and so is everything it expects.
   */
  lemma AssembleIff(decode: Decoder, group: Group, records: Records)
    ensures Assemble(decode, group) == Some(records) <==>
              && AreRecords(decode, group.order, group.slots, records)
              && MANIFEST in records
              && exists expected ::
                   Expects(records, records[MANIFEST], expected) && forall id :: id in expected ==> id in records
  {
    RecordsIff(decode, group.order, group.slots, records);
    if MANIFEST in records {
      CompleteIff(records);
    }
  }

  lemma CompleteIff(records: Records)
    requires MANIFEST in records
    ensures Complete(records) <==>
              exists expected ::
                Expects(records, records[MANIFEST], expected) && forall id :: id in expected ==> id in records
  {
    if Complete(records) {
      ExpectsIff(records, records[MANIFEST], ExpectedRecords(records, records[MANIFEST]).value);
    }
    if expected :| Expects(records, records[MANIFEST], expected) && forall id :: id in expected ==> id in records {
      ExpectsIff(records, records[MANIFEST], expected);
    }
  }

  // ----- The newest complete generation -----

  predicate Newer(g: Generation, h: Generation) {
    g.battle > h.battle || (g.battle == h.battle && g.number > h.number)
  }

  datatype Snapshot = Snapshot(generation: Generation, records: Records)

  /** The newest generation that assembles, with its records; nothing if none does. */
  ghost predicate IsLatest(decode: Decoder, grouped: Grouped, r: Option<Snapshot>) {
    match r
    case None => forall g :: g in grouped ==> Assemble(decode, grouped[g]) == None
    case Some(s) =>
      && s.generation in grouped && Assemble(decode, grouped[s.generation]) == Some(s.records)
      && forall h :: h in grouped && Newer(h, s.generation) ==> Assemble(decode, grouped[h]) == None
  }

  ghost predicate Extracts(decode: Decoder, frames: seq<Frame>, r: Option<Snapshot>) {
    match Collect(frames)
    case None => r == None
    case Some(grouped) => IsLatest(decode, grouped, r)
  }

  lemma NewerIsTotal(g: Generation, h: Generation)
    ensures g == h || Newer(g, h) || Newer(h, g)
  {
  }

  /** There is never more than one thing that a log extracts to. */
  lemma ExtractsOneThing(decode: Decoder, frames: seq<Frame>, r: Option<Snapshot>, s: Option<Snapshot>)
    requires Extracts(decode, frames, r) && Extracts(decode, frames, s)
    ensures r == s
  {
    if r.Some? && s.Some? {
      NewerIsTotal(r.value.generation, s.value.generation);
    }
  }

  method CollectChunks(frames: seq<Frame>) returns (r: Option<Grouped>)
    ensures r == Collect(frames)
    ensures r.Some? <==> Tidy(frames)
    ensures r.Some? ==> Describes(frames, r.value)
  {
    Collected(frames);
    var grouped: Grouped := map[];
    for i := 0 to |frames|
      invariant Collect(frames[..i]) == Some(grouped)
    {
      assert frames[..i + 1][..i] == frames[..i];
      var next := AddFrame(grouped, frames[i]);
      if next.None? {
        CollectFails(frames, i + 1);
        return None;
      }
      grouped := next.value;
    }
    assert frames[..|frames|] == frames;
    r := Some(grouped);
  }

  lemma {:induction false} CollectFails(frames: seq<Frame>, i: nat)
    requires i <= |frames| && Collect(frames[..i]) == None
    ensures Collect(frames) == None
    decreases |frames| - i
  {
    if i == |frames| {
      assert frames[..i] == frames;
    } else {
      assert frames[..i + 1][..i] == frames[..i];
      CollectFails(frames, i + 1);
    }
  }

  /** The newest of some generations. */
  method Newest(gs: set<Generation>) returns (newest: Generation)
    requires gs != {}
    ensures newest in gs && forall g :: g in gs ==> g == newest || Newer(newest, g)
  {
    newest :| newest in gs;
    var rest := gs - {newest};
    while rest != {}
      invariant newest in gs && rest <= gs && forall h :: h in gs && h !in rest ==> h == newest || Newer(newest, h)
      decreases |rest|
    {
      var g :| g in rest;
      NewerIsTotal(g, newest);
      if Newer(g, newest) {
        newest := g;
      }
      rest := rest - {g};
    }
  }

  /** Try the generations newest first; `None` stands for the raised error. */
  method ExtractLatest(decode: Decoder, frames: seq<Frame>) returns (r: Option<Snapshot>)
    ensures Extracts(decode, frames, r)
  {
    var collected := CollectChunks(frames);
    if collected.None? {
      return None;
    }
    var grouped := collected.value;
    var pending := grouped.Keys;
    while pending != {}
      invariant pending <= grouped.Keys
      invariant forall g :: g in grouped && g !in pending ==> Assemble(decode, grouped[g]) == None
      decreases |pending|
    {
      var g := Newest(pending);
      var records := AssembleGroup(decode, grouped[g]);
      if records.Some? {
        return Some(Snapshot(g, records.value));
      }
      pending := pending - {g};
    }
    r := None;
  }

  method AssembleGroup(decode: Decoder, group: Group) returns (r: Option<Records>)
    ensures r == Assemble(decode, group)
  {
    var records: Records := map[];
    for i := 0 to |group.order|
      invariant RecordsOf(decode, group.order[..i], group.slots) == Some(records)
    {
      assert group.order[..i + 1][..i] == group.order[..i];
      var k := group.order[i];
      var record := if k in group.slots then SlotRecord(decode, k, group.slots[k]) else None;
      if record.None? {
        RecordsFail(decode, group.order, group.slots, i + 1);
        return None;
      }
      records := records[RecordId(k) := record.value];
    }
    assert group.order[..|group.order|] == group.order;
    if MANIFEST !in records {
      return None;
    }
    var expected := ManifestExpectedRecords(records, records[MANIFEST]);
    if expected.None? {
      return None;
    }
    var missing := AnyMissing(expected.value, records);
    if missing {
      return None;
    }
    r := Some(records);
  }

  method AnyMissing(ids: seq<string>, records: Records) returns (missing: bool)
    ensures missing <==> exists id :: id in ids && id !in records
  {
    for i := 0 to |ids|
      invariant forall j :: 0 <= j < i ==> ids[j] in records
    {
      if ids[i] !in records {
        return true;
      }
    }
    missing := false;
  }

  lemma {:induction false} RecordsFail(decode: Decoder, order: seq<SlotKey>, slots: map<SlotKey, Slot>, i: nat)
    requires i <= |order| && RecordsOf(decode, order[..i], slots) == None
    ensures RecordsOf(decode, order, slots) == None
    decreases |order| - i
  {
    if i == |order| {
      assert order[..i] == order;
    } else {
      assert order[..i + 1][..i] == order[..i];
      RecordsFail(decode, order, slots, i + 1);
    }
  }

  // ----- Cutting a text into chunks and joining it again -----

  /** Consecutive pieces of at most `size` characters. */
  function Slices(text: string, size: nat): (r: seq<string>)
    requires size > 0
    decreases |text|
  {
    if |text| <= size then [text] else [text[..size]] + Slices(text[size..], size)
  }

  lemma {:induction false} SlicesJoin(text: string, size: nat)
    requires size > 0
    ensures Concat(Slices(text, size)) == text
    decreases |text|
  {
    if |text| <= size {
      ConcatCons(text, []);
      assert [text] + [] == [text];
    } else {
      SlicesJoin(text[size..], size);
      ConcatCons(text[..size], Slices(text[size..], size));
    }
  }

  lemma {:induction false} JoinedIsConcat(chunks: map<nat, string>, pieces: seq<string>, n: nat)
    requires n <= |pieces| && forall i :: 0 <= i < n ==> i in chunks && chunks[i] == pieces[i]
    ensures Joined(chunks, n) == Concat(pieces[..n])
  {
    if n > 0 {
      JoinedIsConcat(chunks, pieces, n - 1);
      assert pieces[..n][..n - 1] == pieces[..n - 1];
    }
  }

  /** The frames that carry a text cut into pieces. */
  function Cut(text: string, size: nat, g: Generation, k: SlotKey, length: nat, digest: string): (r: seq<Frame>)
    requires size > 0
    ensures |r| == |Slices(text, size)|
  {
    var pieces := Slices(text, size);
    seq(|pieces|, i requires 0 <= i < |pieces| =>
      Frame(g.battle, g.number, k.section, k.key, i, |pieces|, length, digest, pieces[i]))
  }

  /** The slot holds as many chunks as there are pieces, each under its index. */
  ghost predicate HoldsPieces(slot: Slot, pieces: seq<string>) {
    && slot.count == |pieces|
    && (forall i: nat :: i < |pieces| ==> i in slot.chunks && slot.chunks[i] == pieces[i])
    && (forall index :: index in slot.chunks ==> index < |pieces|)
  }

  lemma PiecesJoin(slot: Slot, text: string, size: nat)
    requires size > 0 && HoldsPieces(slot, Slices(text, size))
    ensures Whole(slot) && Joined(slot.chunks, slot.count) == text
  {
    var pieces := Slices(text, size);
    CountKeys(slot.chunks, |pieces|);
    JoinedIsConcat(slot.chunks, pieces, |pieces|);
    assert pieces[..|pieces|] == pieces;
    SlicesJoin(text, size);
  }

  /** However the frames of a cut text are mixed into a tidy log, the slot holds the text again. */
  lemma ReassemblyRestores(text: string, size: nat, g: Generation, k: SlotKey, length: nat, digest: string,
                           log: seq<Frame>, grouped: Grouped)
    requires size > 0 && Collect(log) == Some(grouped)
    requires forall f :: f in Cut(text, size, g, k, length, digest) ==> f in log
    ensures g in grouped && k in grouped[g].slots && Whole(grouped[g].slots[k])
    ensures var slot := grouped[g].slots[k];
            Joined(slot.chunks, slot.count) == text && slot.length == length && slot.digest == digest
  {
    var frames, pieces := Cut(text, size, g, k, length, digest), Slices(text, size);
    Collected(log);
    forall i | 0 <= i < |pieces| ensures Holds(grouped, frames[i]) {
      assert frames[i] in frames;
    }
    assert Holds(grouped, frames[0]);
    var slot := grouped[g].slots[k];
    forall index | index in slot.chunks ensures index < |pieces| {
      assert Carried(log, g, k, index);
      var f :| f in log && At(f) == g && KeyOf(f) == k && f.index == index;
      assert Holds(grouped, f);
    }
    forall i: nat | i < |pieces| ensures i in slot.chunks && slot.chunks[i] == pieces[i] {
      assert Holds(grouped, frames[i]);
    }
    PiecesJoin(slot, text, size);
  }

  lemma {:induction false} CountKeys(chunks: map<nat, string>, n: nat)
    requires forall i :: i in chunks ==> i < n
    requires forall i :: 0 <= i < n ==> i in chunks
    ensures |chunks| == n
  {
    if n > 0 {
      CountKeys(chunks - {n - 1}, n - 1);
      assert chunks == (chunks - {n - 1})[n - 1 := chunks[n - 1]];
    } else {
      assert chunks == map[];
    }
  }
}
