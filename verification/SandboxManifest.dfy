/** Which generations can be completed, told from their slots. */
module SandboxManifest {
  import opened Common
  import opened Sequences
  import opened CombatSandbox
  import opened SandboxRecords
  import opened SandboxOrder

  // ----- The manifest slot -----

  const ROOT := SlotKey("manifest", "root")

  /** Only one slot can be the manifest: its id has one colon. */
  lemma OnlyRootIsManifest(k: SlotKey)
    ensures RecordId(k) == MANIFEST <==> k == ROOT
  {
    if RecordId(k) == MANIFEST {
      assert MANIFEST[|k.section|] == ':';
      assert |k.section| == 8;
      assert k.section == MANIFEST[..8] == "manifest" && k.key == MANIFEST[9..] == "root";
    }
  }

  /** The manifest slot decodes, and lists `expected` itself. */
  ghost predicate ListsItself(decode: Decoder, slots: map<SlotKey, Slot>, expected: seq<string>) {
    exists r :: Spells(decode, ROOT, slots, r) && r.payload.Object? && r.payload.expectedRecords == Strings(expected)
  }

  ghost predicate HasSlotFor(slots: map<SlotKey, Slot>, id: string) {
    exists k :: k in slots && RecordId(k) == id
  }

  /** A slot that shares its id with no other decides that record. */
  lemma OnlySlotDecides(decode: Decoder, order: seq<SlotKey>, slots: map<SlotKey, Slot>, m: SlotKey)
    requires RecordsOf(decode, order, slots).Some? && m in order && m in slots
    requires forall k :: k in order && RecordId(k) == RecordId(m) ==> k == m
    ensures RecordId(m) in RecordsOf(decode, order, slots).value
    ensures SlotRecord(decode, m, slots[m]) == Some(RecordsOf(decode, order, slots).value[RecordId(m)])
  {
    RecordsFound(decode, order, slots);
    var records := RecordsOf(decode, order, slots).value;
    assert RecordOfSome(decode, order, slots, RecordId(m), records[RecordId(m)]);
  }

  lemma ListedIds(decode: Decoder, order: seq<SlotKey>, slots: map<SlotKey, Slot>, id: string)
    requires Lists(order, slots) && RecordsOf(decode, order, slots).Some?
    ensures id in RecordsOf(decode, order, slots).value <==> HasSlotFor(slots, id)
  {
    RecordsFound(decode, order, slots);
    var records := RecordsOf(decode, order, slots).value;
    if id in records {
      assert RecordOfSome(decode, order, slots, id, records[id]);
    }
  }

  /** Every slot decodes, and there is a slot for everything the manifest lists. */
  ghost predicate NothingMissing(decode: Decoder, slots: map<SlotKey, Slot>, expected: seq<string>) {
    && (forall k :: k in slots ==> Decodes(decode, k, slots))
    && (forall id :: id in expected ==> HasSlotFor(slots, id))
  }

  /** The manifest that the records hold is what the manifest slot spells out. */
  lemma ManifestHeld(decode: Decoder, slots: map<SlotKey, Slot>, order: seq<SlotKey>, r: Record)
    requires Lists(order, slots) && RecordsOf(decode, order, slots).Some? && Spells(decode, ROOT, slots, r)
    ensures MANIFEST in RecordsOf(decode, order, slots).value
    ensures RecordsOf(decode, order, slots).value[MANIFEST] == r
  {
    forall k | k in order && RecordId(k) == RecordId(ROOT) ensures k == ROOT {
      OnlyRootIsManifest(k);
      OnlyRootIsManifest(ROOT);
    }
    OnlyRootIsManifest(ROOT);
    OnlySlotDecides(decode, order, slots, ROOT);
    SpellsIff(decode, ROOT, slots, r);
  }

  lemma AllListed(decode: Decoder, slots: map<SlotKey, Slot>, order: seq<SlotKey>, ids: seq<string>)
    requires Lists(order, slots) && RecordsOf(decode, order, slots).Some?
    ensures (forall id :: id in ids ==> id in RecordsOf(decode, order, slots).value)
            <==> (forall id :: id in ids ==> HasSlotFor(slots, id))
  {
    forall id ensures id in RecordsOf(decode, order, slots).value <==> HasSlotFor(slots, id) {
      ListedIds(decode, order, slots, id);
    }
  }

  /** With a manifest that lists the records itself, the order does not decide whether a generation assembles. */
  lemma DirectAssembles(decode: Decoder, slots: map<SlotKey, Slot>, order: seq<SlotKey>, expected: seq<string>)
    requires Lists(order, slots) && ListsItself(decode, slots, expected)
    ensures Assemble(decode, Group(order, slots)).Some? <==> NothingMissing(decode, slots, expected)
  {
    RecordsDecode(decode, order, slots);
    if RecordsOf(decode, order, slots).Some? {
      var r :| Spells(decode, ROOT, slots, r) && r.payload.Object? && r.payload.expectedRecords == Strings(expected);
      ManifestHeld(decode, slots, order, r);
      AllListed(decode, slots, order, expected);
    }
  }

  /** So it can be told from the slots alone whether such a generation can be completed. */
  lemma DirectCompletable(decode: Decoder, frames: seq<Frame>, grouped: Grouped, g: Generation, expected: seq<string>)
    requires Collect(frames) == Some(grouped) && g in grouped && ListsItself(decode, grouped[g].slots, expected)
    ensures Completable(decode, grouped[g].slots) <==> NothingMissing(decode, grouped[g].slots, expected)
  {
    var slots := grouped[g].slots;
    GroupsList(frames, grouped, g);
    DirectAssembles(decode, slots, grouped[g].order, expected);
    if order :| Lists(order, slots) && Assemble(decode, Group(order, slots)).Some? {
      DirectAssembles(decode, slots, order, expected);
    }
  }

  /** A generation without a manifest slot cannot be completed. */
  lemma NoManifestNoCompletion(decode: Decoder, slots: map<SlotKey, Slot>)
    requires ROOT !in slots
    ensures !Completable(decode, slots)
  {
    if order :| Lists(order, slots) && Assemble(decode, Group(order, slots)).Some? {
      ListedIds(decode, order, slots, MANIFEST);
      var k :| k in slots && RecordId(k) == MANIFEST;
      OnlyRootIsManifest(k);
    }
  }

  // ----- Manifests that leave the listing to shards -----

  /** The manifest slot decodes, and names the shards and how many records they list. */
  ghost predicate ListsShards(decode: Decoder, slots: map<SlotKey, Slot>, shards: seq<string>, count: int) {
    exists r ::
      && Spells(decode, ROOT, slots, r) && r.payload.Object? && r.payload.expectedRecords.Absent?
      && r.payload.expectedShards == Strings(shards) && r.payload.expectedCount == Number(count)
  }

  /** No two slots share this id. */
  ghost predicate SoleSlot(slots: map<SlotKey, Slot>, id: string) {
    forall k, l :: k in slots && l in slots && RecordId(k) == id && RecordId(l) == id ==> k == l
  }

  /** A slot with this id decodes, and lists the record ids `ids`. */
  ghost predicate SlotLists(decode: Decoder, slots: map<SlotKey, Slot>, id: string, ids: seq<string>) {
    exists k, r ::
      RecordId(k) == id && Spells(decode, k, slots, r) && r.payload.Object? && r.payload.records == Strings(ids)
  }

  ghost predicate SlotsList(
      decode: Decoder, slots: map<SlotKey, Slot>, shards: seq<string>, listings: seq<seq<string>>)
  {
    |listings| == |shards| && forall i :: 0 <= i < |shards| ==> SlotLists(decode, slots, shards[i], listings[i])
  }

  /** Every slot decodes; the shards list as many records as announced, none twice, and there is a slot for each. */
  ghost predicate NothingMissingInShards(
      decode: Decoder, slots: map<SlotKey, Slot>, shards: seq<string>, count: int)
  {
    && (forall k :: k in slots ==> Decodes(decode, k, slots))
    && exists listings ::
         && SlotsList(decode, slots, shards, listings)
         && |Concat(listings)| == count && AllDifferent(Concat(listings))
         && forall id :: id in Concat(listings) ==> HasSlotFor(slots, id)
  }

  /** What the records say of a shard with one slot is what that slot says. */
  lemma SoleShard(decode: Decoder, slots: map<SlotKey, Slot>, order: seq<SlotKey>, id: string, ids: seq<string>)
    requires Lists(order, slots) && RecordsOf(decode, order, slots).Some? && SoleSlot(slots, id)
    ensures IsShard(RecordsOf(decode, order, slots).value, id, ids) <==> SlotLists(decode, slots, id, ids)
  {
    var records := RecordsOf(decode, order, slots).value;
    ListedIds(decode, order, slots, id);
    if id in records {
      var k :| k in slots && RecordId(k) == id;
      OnlySlotDecides(decode, order, slots, k);
      SpellsIff(decode, k, slots, records[id]);
    }
    if SlotLists(decode, slots, id, ids) {
      var k, r :|
        RecordId(k) == id && Spells(decode, k, slots, r) && r.payload.Object? && r.payload.records == Strings(ids);
      OnlySlotDecides(decode, order, slots, k);
      SpellsIff(decode, k, slots, r);
    }
  }

  lemma SoleShardsGather(
      decode: Decoder, slots: map<SlotKey, Slot>, order: seq<SlotKey>, shards: seq<string>, listings: seq<seq<string>>)
    requires Lists(order, slots) && RecordsOf(decode, order, slots).Some?
    requires forall id :: id in shards ==> SoleSlot(slots, id)
    ensures Gathers(RecordsOf(decode, order, slots).value, shards, listings)
            <==> SlotsList(decode, slots, shards, listings)
  {
    var records := RecordsOf(decode, order, slots).value;
    if |listings| == |shards| {
      forall i | 0 <= i < |shards|
        ensures IsShard(records, shards[i], listings[i]) <==> SlotLists(decode, slots, shards[i], listings[i])
      {
        SoleShard(decode, slots, order, shards[i], listings[i]);
      }
    }
  }

  /** What the shards must list, said of the records and said of the slots. */
  lemma ShardsComplete(
      decode: Decoder, slots: map<SlotKey, Slot>, order: seq<SlotKey>, r: Record, shards: seq<string>, count: int)
    requires Lists(order, slots) && RecordsOf(decode, order, slots).Some? && Spells(decode, ROOT, slots, r)
    requires r.payload.Object? && r.payload.expectedRecords.Absent?
    requires r.payload.expectedShards == Strings(shards) && r.payload.expectedCount == Number(count)
    requires forall id :: id in shards ==> SoleSlot(slots, id)
    requires forall k :: k in slots ==> Decodes(decode, k, slots)
    ensures Complete(RecordsOf(decode, order, slots).value) <==> NothingMissingInShards(decode, slots, shards, count)
  {
    var records := RecordsOf(decode, order, slots).value;
    ManifestHeld(decode, slots, order, r);
    CompleteIff(records);
    if Complete(records) {
      var expected :| Expects(records, r, expected) && forall id :: id in expected ==> id in records;
      var listings :| Gathers(records, shards, listings) && expected == Concat(listings);
      SoleShardsGather(decode, slots, order, shards, listings);
      AllListed(decode, slots, order, expected);
    }
    if NothingMissingInShards(decode, slots, shards, count) {
      var listings :|
        && SlotsList(decode, slots, shards, listings)
        && |Concat(listings)| == count && AllDifferent(Concat(listings))
        && forall id :: id in Concat(listings) ==> HasSlotFor(slots, id);
      SoleShardsGather(decode, slots, order, shards, listings);
      AllListed(decode, slots, order, Concat(listings));
      assert GathersTo(records, shards, Concat(listings));
      assert Expects(records, r, Concat(listings));
    }
  }

  /** With shards that share their ids with no other slot, the order does not decide whether a generation assembles. */
  lemma ShardedAssembles(
      decode: Decoder, slots: map<SlotKey, Slot>, order: seq<SlotKey>, shards: seq<string>, count: int)
    requires Lists(order, slots) && ListsShards(decode, slots, shards, count)
    requires forall id :: id in shards ==> SoleSlot(slots, id)
    ensures Assemble(decode, Group(order, slots)).Some? <==> NothingMissingInShards(decode, slots, shards, count)
  {
    RecordsDecode(decode, order, slots);
    if RecordsOf(decode, order, slots).Some? {
      var r :|
        && Spells(decode, ROOT, slots, r) && r.payload.Object? && r.payload.expectedRecords.Absent?
        && r.payload.expectedShards == Strings(shards) && r.payload.expectedCount == Number(count);
      ShardsComplete(decode, slots, order, r, shards, count);
    }
  }

  /** So it can be told from the slots alone whether such a generation can be completed. */
  lemma ShardedCompletable(
      decode: Decoder, frames: seq<Frame>, grouped: Grouped, g: Generation, shards: seq<string>, count: int)
    requires Collect(frames) == Some(grouped) && g in grouped
    requires ListsShards(decode, grouped[g].slots, shards, count)
    requires forall id :: id in shards ==> SoleSlot(grouped[g].slots, id)
    ensures Completable(decode, grouped[g].slots)
            <==> NothingMissingInShards(decode, grouped[g].slots, shards, count)
  {
    var slots := grouped[g].slots;
    GroupsList(frames, grouped, g);
    ShardedAssembles(decode, slots, grouped[g].order, shards, count);
    if order :| Lists(order, slots) && Assemble(decode, Group(order, slots)).Some? {
      ShardedAssembles(decode, slots, order, shards, count);
    }
  }

  /** There is one colon in `id`. */
  ghost predicate OneColon(id: string) {
    exists i :: ColonAt(id, i)
  }

  ghost predicate ColonAt(id: string, i: int) {
    0 <= i < |id| && id[i] == ':' && forall j :: 0 <= j < |id| && j != i ==> id[j] != ':'
  }

  lemma CutAtColon(k: SlotKey, i: int)
    requires ColonAt(RecordId(k), i)
    ensures k == SlotKey(RecordId(k)[..i], RecordId(k)[i + 1..])
  {
    assert RecordId(k)[|k.section|] == ':';
    assert RecordId(k)[..|k.section|] == k.section && RecordId(k)[|k.section| + 1..] == k.key;
  }

  /** An id with one colon leaves only one way to be cut into section and key. */
  lemma OneColonIsSole(slots: map<SlotKey, Slot>, id: string)
    requires OneColon(id)
    ensures SoleSlot(slots, id)
  {
    var i :| ColonAt(id, i);
    forall k, l | k in slots && l in slots && RecordId(k) == id && RecordId(l) == id ensures k == l {
      CutAtColon(k, i);
      CutAtColon(l, i);
    }
  }

  /** For shards named by one section and a key without colons, the order never decides completion. */
  lemma PlainShardsCompletable(
      decode: Decoder, frames: seq<Frame>, grouped: Grouped, g: Generation, shards: seq<string>, count: int)
    requires Collect(frames) == Some(grouped) && g in grouped
    requires ListsShards(decode, grouped[g].slots, shards, count) && forall id :: id in shards ==> OneColon(id)
    ensures Completable(decode, grouped[g].slots)
            <==> NothingMissingInShards(decode, grouped[g].slots, shards, count)
    ensures Completable(decode, grouped[g].slots) <==> Assemble(decode, grouped[g]).Some?
  {
    var slots := grouped[g].slots;
    forall id | id in shards ensures SoleSlot(slots, id) {
      OneColonIsSole(slots, id);
    }
    ShardedCompletable(decode, frames, grouped, g, shards, count);
    GroupsList(frames, grouped, g);
    ShardedAssembles(decode, slots, grouped[g].order, shards, count);
    assert grouped[g] == Group(grouped[g].order, slots);
  }

  // ----- Any other manifest -----

  /** The manifest slot decodes, but its payload is neither kind of listing. */
  ghost predicate ListsNothing(decode: Decoder, slots: map<SlotKey, Slot>) {
    exists r :: Spells(decode, ROOT, slots, r) && !IsListing(r.payload)
  }

  predicate IsListing(p: Payload) {
    && p.Object?
    && (|| p.expectedRecords.Strings?
        || (p.expectedRecords.Absent? && p.expectedShards.Strings? && p.expectedCount.Number?))
  }

  lemma NoListingNoCompletion(decode: Decoder, slots: map<SlotKey, Slot>)
    requires ListsNothing(decode, slots)
    ensures !Completable(decode, slots)
  {
    var r :| Spells(decode, ROOT, slots, r) && !IsListing(r.payload);
    if order :| Lists(order, slots) && Assemble(decode, Group(order, slots)).Some? {
      ManifestHeld(decode, slots, order, r);
    }
  }
}
