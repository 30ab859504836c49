/** When the order of a log's chunk frames matters to what is extracted, and when it does not. */
module SandboxOrder {
  import opened Common
  import opened Sorting
  import opened CombatSandbox
  import opened SandboxRecords

  // ----- Collected slots do not depend on the order -----

  lemma TidyIsDistinct(xs: seq<Frame>)
    requires Tidy(xs)
    ensures Distinct(xs)
  {
    forall i, j | 0 <= i < j < |xs| ensures xs[i] != xs[j] {
      assert Compatible(xs[i], xs[j]);
    }
  }

  lemma TidyPermutes(xs: seq<Frame>, ys: seq<Frame>)
    requires multiset(xs) == multiset(ys) && Tidy(xs)
    ensures Tidy(ys)
  {
    TidyIsDistinct(xs);
    DistinctPermutes(xs, ys);
    MembersAgree(xs, ys);
    forall i, j | 0 <= i < j < |ys| ensures Compatible(ys[i], ys[j]) {
      assert ys[i] in xs && ys[j] in xs && ys[i] != ys[j];
      var p :| 0 <= p < |xs| && xs[p] == ys[i];
      var q :| 0 <= q < |xs| && xs[q] == ys[j];
      if p < q {
        assert Compatible(xs[p], xs[q]);
      } else {
        assert Compatible(xs[q], xs[p]);
      }
    }
  }

  /** Collecting fails on a log exactly if it fails on every rearrangement of it. */
  lemma FailureForgetsOrder(xs: seq<Frame>, ys: seq<Frame>)
    requires multiset(xs) == multiset(ys)
    ensures Collect(xs).Some? <==> Collect(ys).Some?
  {
    Collected(xs);
    Collected(ys);
    if Tidy(xs) {
      TidyPermutes(xs, ys);
    }
    if Tidy(ys) {
      TidyPermutes(ys, xs);
    }
  }

  /** The same description and at least the same chunks. */
  ghost predicate SlotWithin(few: Slot, many: Slot) {
    && few.count == many.count && few.length == many.length && few.digest == many.digest
    && forall i :: i in few.chunks ==> i in many.chunks && few.chunks[i] == many.chunks[i]
  }

  ghost predicate SlotsWithin(few: Group, many: Group) {
    forall k :: k in few.slots ==> k in many.slots && SlotWithin(few.slots[k], many.slots[k])
  }

  /** One chunk is found again, in a slot of the same description. */
  lemma ChunkReappears(xs: seq<Frame>, ys: seq<Frame>, gx: Grouped, gy: Grouped, g: Generation, k: SlotKey, i: nat)
    requires HoldsAll(xs, gx) && Backed(xs, gx) && HoldsAll(ys, gy) && forall f :: f in xs ==> f in ys
    requires g in gx && k in gx[g].slots && i in gx[g].slots[k].chunks
    ensures g in gy && k in gy[g].slots && i in gy[g].slots[k].chunks
    ensures var s, t := gx[g].slots[k], gy[g].slots[k];
            s.count == t.count && s.length == t.length && s.digest == t.digest && s.chunks[i] == t.chunks[i]
  {
    assert Carried(xs, g, k, i);
    var f :| f in xs && At(f) == g && KeyOf(f) == k && f.index == i;
    assert Holds(gx, f) && Holds(gy, f);
  }

  lemma SlotReappears(xs: seq<Frame>, ys: seq<Frame>, gx: Grouped, gy: Grouped, g: Generation, k: SlotKey)
    requires HoldsAll(xs, gx) && Backed(xs, gx) && HoldsAll(ys, gy) && forall f :: f in xs ==> f in ys
    requires g in gx && k in gx[g].slots
    ensures g in gy && k in gy[g].slots && SlotWithin(gx[g].slots[k], gy[g].slots[k])
  {
    var some :| some in gx[g].slots[k].chunks;
    ChunkReappears(xs, ys, gx, gy, g, k, some);
    forall i | i in gx[g].slots[k].chunks
      ensures i in gy[g].slots[k].chunks && gx[g].slots[k].chunks[i] == gy[g].slots[k].chunks[i]
    {
      ChunkReappears(xs, ys, gx, gy, g, k, i);
    }
  }

  lemma GroupReappears(xs: seq<Frame>, ys: seq<Frame>, gx: Grouped, gy: Grouped, g: Generation)
    requires Describes(xs, gx) && HoldsAll(ys, gy) && (forall f :: f in xs ==> f in ys) && g in gx
    ensures g in gy && SlotsWithin(gx[g], gy[g])
  {
    var first := gx[g].order[0];
    assert first in gx[g].slots;
    SlotReappears(xs, ys, gx, gy, g, first);
    forall k | k in gx[g].slots ensures k in gy[g].slots && SlotWithin(gx[g].slots[k], gy[g].slots[k]) {
      SlotReappears(xs, ys, gx, gy, g, k);
    }
  }

  lemma SameSlots(a: Group, b: Group)
    requires SlotsWithin(a, b) && SlotsWithin(b, a)
    ensures a.slots == b.slots
  {
    forall k | k in a.slots ensures a.slots[k] == b.slots[k] {
      assert a.slots[k].chunks == b.slots[k].chunks;
    }
  }

  /** Rearranging a log changes nothing but the order in which slots are listed. */
  lemma SlotsForgetOrder(xs: seq<Frame>, ys: seq<Frame>, gx: Grouped, gy: Grouped)
    requires multiset(xs) == multiset(ys) && Collect(xs) == Some(gx) && Collect(ys) == Some(gy)
    ensures gx.Keys == gy.Keys && forall g :: g in gx ==> gx[g].slots == gy[g].slots
  {
    Collected(xs);
    Collected(ys);
    MembersAgree(xs, ys);
    forall g | g in gx ensures g in gy && gx[g].slots == gy[g].slots {
      GroupReappears(xs, ys, gx, gy, g);
      GroupReappears(ys, xs, gy, gx, g);
      SameSlots(gx[g], gy[g]);
    }
    forall g | g in gy ensures g in gx {
      GroupReappears(ys, xs, gy, gx, g);
    }
  }

  // ----- Records, order and colliding ids -----

  /** `order` lists each slot once. */
  ghost predicate Lists(order: seq<SlotKey>, slots: map<SlotKey, Slot>) {
    Distinct(order) && forall k :: k in order <==> k in slots
  }

  /** No two slots produce the same record id. */
  ghost predicate NoCollision(slots: map<SlotKey, Slot>) {
    forall a, b :: a in slots && b in slots && RecordId(a) == RecordId(b) ==> a == b
  }

  /** Without collisions, a record is the one of the only slot with its id, in whatever order. */
  lemma RecordsCarryOver(decode: Decoder, o: seq<SlotKey>, p: seq<SlotKey>, slots: map<SlotKey, Slot>, id: string)
    requires Lists(o, slots) && Lists(p, slots) && NoCollision(slots)
    requires RecordsOf(decode, o, slots).Some? && RecordsOf(decode, p, slots).Some?
    requires id in RecordsOf(decode, o, slots).value
    ensures id in RecordsOf(decode, p, slots).value
    ensures RecordsOf(decode, o, slots).value[id] == RecordsOf(decode, p, slots).value[id]
  {
    RecordsFound(decode, o, slots);
    RecordsFound(decode, p, slots);
    var k :| k in o && k in slots && RecordId(k) == id
      && SlotRecord(decode, k, slots[k]) == Some(RecordsOf(decode, o, slots).value[id]);
    assert k in p;
    var m :| m in p && m in slots && RecordId(m) == id
      && SlotRecord(decode, m, slots[m]) == Some(RecordsOf(decode, p, slots).value[id]);
  }

  lemma RecordsForgetOrder(decode: Decoder, o: seq<SlotKey>, p: seq<SlotKey>, slots: map<SlotKey, Slot>)
    requires Lists(o, slots) && Lists(p, slots) && NoCollision(slots)
    ensures RecordsOf(decode, o, slots) == RecordsOf(decode, p, slots)
  {
    RecordsDecode(decode, o, slots);
    RecordsDecode(decode, p, slots);
    if RecordsOf(decode, o, slots).Some? {
      var x, y := RecordsOf(decode, o, slots).value, RecordsOf(decode, p, slots).value;
      forall id | id in x ensures id in y && x[id] == y[id] {
        RecordsCarryOver(decode, o, p, slots, id);
      }
      forall id | id in y ensures id in x {
        RecordsCarryOver(decode, p, o, slots, id);
      }
      assert x == y;
    }
  }

  function Without(order: seq<SlotKey>, k: SlotKey): seq<SlotKey> {
    if order == [] then []
    else Without(order[..|order| - 1], k) + (if order[|order| - 1] == k then [] else [order[|order| - 1]])
  }

  lemma {:induction false} WithoutMembers(order: seq<SlotKey>, k: SlotKey)
    requires Distinct(order)
    ensures Distinct(Without(order, k)) && forall m :: m in Without(order, k) <==> m in order && m != k
  {
    if order != [] {
      WithoutMembers(order[..|order| - 1], k);
      assert forall m :: m in order <==> m in order[..|order| - 1] || m == order[|order| - 1];
      assert order[|order| - 1] !in order[..|order| - 1];
    }
  }

  /** Records of different slots are different, even when their ids are not. */
  lemma SlotsTell(decode: Decoder, a: SlotKey, b: SlotKey, slots: map<SlotKey, Slot>)
    requires Decodes(decode, a, slots) && Decodes(decode, b, slots) && a != b
    ensures SlotRecord(decode, a, slots[a]) != SlotRecord(decode, b, slots[b])
  {
  }

  lemma MovedLast(decode: Decoder, o: seq<SlotKey>, slots: map<SlotKey, Slot>, k: SlotKey) returns (p: seq<SlotKey>)
    requires Lists(o, slots) && RecordsOf(decode, o, slots).Some? && k in slots
    ensures Lists(p, slots) && RecordsOf(decode, p, slots).Some? && RecordId(k) in RecordsOf(decode, p, slots).value
    ensures SlotRecord(decode, k, slots[k]) == Some(RecordsOf(decode, p, slots).value[RecordId(k)])
  {
    RecordsDecode(decode, o, slots);
    WithoutMembers(o, k);
    p := Without(o, k) + [k];
    RecordsDecode(decode, p, slots);
    RecordsDecode(decode, p[..|p| - 1], slots);
  }

  /** Two colliding slots can always be listed so that the other one wins. */
  lemma CollisionShows(decode: Decoder, o: seq<SlotKey>, slots: map<SlotKey, Slot>, a: SlotKey, b: SlotKey)
    returns (p: seq<SlotKey>)
    requires Lists(o, slots) && RecordsOf(decode, o, slots).Some?
    requires a in slots && b in slots && a != b && RecordId(a) == RecordId(b)
    ensures Lists(p, slots) && RecordsOf(decode, p, slots).Some?
    ensures RecordsOf(decode, p, slots) != RecordsOf(decode, o, slots)
  {
    RecordsDecode(decode, o, slots);
    RecordsFound(decode, o, slots);
    SlotsTell(decode, a, b, slots);
    var won := Some(RecordsOf(decode, o, slots).value[RecordId(a)]);
    if SlotRecord(decode, a, slots[a]) == won {
      p := MovedLast(decode, o, slots, b);
    } else {
      p := MovedLast(decode, o, slots, a);
    }
  }

  // ----- Every listing of a generation's slots comes from some arrangement of the log -----

  function Only(xs: seq<Frame>, g: Generation, k: SlotKey): seq<Frame> {
    if xs == [] then []
    else Only(xs[..|xs| - 1], g, k)
         + (if At(xs[|xs| - 1]) == g && KeyOf(xs[|xs| - 1]) == k then [xs[|xs| - 1]] else [])
  }

  function Others(xs: seq<Frame>, g: Generation): seq<Frame> {
    if xs == [] then []
    else Others(xs[..|xs| - 1], g) + (if At(xs[|xs| - 1]) == g then [] else [xs[|xs| - 1]])
  }

  /** The frames of `g` slot by slot. */
  function Blocks(xs: seq<Frame>, g: Generation, order: seq<SlotKey>): seq<Frame> {
    if order == [] then [] else Blocks(xs, g, order[..|order| - 1]) + Only(xs, g, order[|order| - 1])
  }

  function Arrange(xs: seq<Frame>, g: Generation, order: seq<SlotKey>): seq<Frame> {
    Blocks(xs, g, order) + Others(xs, g)
  }

  lemma JoinedCounted<T>(xs: seq<T>, ys: seq<T>, x: T)
    ensures multiset(xs + ys)[x] == multiset(xs)[x] + multiset(ys)[x]
  {
  }

  lemma OneMoreCounted<T>(xs: seq<T>, x: T, y: T)
    ensures multiset(xs + [x])[y] == multiset(xs)[y] + if x == y then 1 else 0
  {
  }

  lemma LastCounted<T>(xs: seq<T>, y: T)
    requires xs != []
    ensures multiset(xs)[y] == multiset(xs[..|xs| - 1])[y] + if xs[|xs| - 1] == y then 1 else 0
  {
    OneMoreCounted(xs[..|xs| - 1], xs[|xs| - 1], y);
    assert xs == xs[..|xs| - 1] + [xs[|xs| - 1]];
  }

  lemma {:induction false} OnlyCounts(xs: seq<Frame>, g: Generation, k: SlotKey, f: Frame)
    ensures multiset(Only(xs, g, k))[f] == if At(f) == g && KeyOf(f) == k then multiset(xs)[f] else 0
  {
    if xs != [] {
      var front, last := xs[..|xs| - 1], xs[|xs| - 1];
      OnlyCounts(front, g, k, f);
      LastCounted(xs, f);
      OneMoreCounted(Only(front, g, k), last, f);
    }
  }

  lemma {:induction false} OthersCounts(xs: seq<Frame>, g: Generation, f: Frame)
    ensures multiset(Others(xs, g))[f] == if At(f) == g then 0 else multiset(xs)[f]
  {
    if xs != [] {
      var front, last := xs[..|xs| - 1], xs[|xs| - 1];
      OthersCounts(front, g, f);
      LastCounted(xs, f);
      OneMoreCounted(Others(front, g), last, f);
    }
  }

  lemma LastMember<T>(xs: seq<T>, x: T)
    requires xs != [] && Distinct(xs)
    ensures Distinct(xs[..|xs| - 1]) && xs[|xs| - 1] !in xs[..|xs| - 1]
    ensures x in xs <==> x in xs[..|xs| - 1] || x == xs[|xs| - 1]
  {
    assert xs == xs[..|xs| - 1] + [xs[|xs| - 1]];
  }

  lemma {:induction false} BlocksCount(xs: seq<Frame>, g: Generation, order: seq<SlotKey>, f: Frame)
    requires Distinct(order)
    ensures multiset(Blocks(xs, g, order))[f] == if At(f) == g && KeyOf(f) in order then multiset(xs)[f] else 0
  {
    if order != [] {
      var front, k := order[..|order| - 1], order[|order| - 1];
      LastMember(order, KeyOf(f));
      hide Distinct, Only;
      BlocksCount(xs, g, front, f);
      OnlyCounts(xs, g, k, f);
      JoinedCounted(Blocks(xs, g, front), Only(xs, g, k), f);
    }
  }

  lemma ArrangePermutes(xs: seq<Frame>, g: Generation, order: seq<SlotKey>)
    requires Distinct(order) && forall f :: f in xs && At(f) == g ==> KeyOf(f) in order
    ensures multiset(Arrange(xs, g, order)) == multiset(xs)
  {
    forall f ensures multiset(Arrange(xs, g, order))[f] == multiset(xs)[f] {
      BlocksCount(xs, g, order, f);
      OthersCounts(xs, g, f);
      assert f in multiset(xs) <==> f in xs;
    }
  }

  lemma {:induction false} FirstSlotsAppend(xs: seq<Frame>, ys: seq<Frame>, g: Generation, k: SlotKey)
    requires k !in FirstSlots(xs, g) && ys != [] && forall f :: f in ys ==> At(f) == g && KeyOf(f) == k
    ensures FirstSlots(xs + ys, g) == FirstSlots(xs, g) + [k]
  {
    var front, last := ys[..|ys| - 1], ys[|ys| - 1];
    assert last in ys && xs + ys == (xs + front) + [last];
    FirstSlotsMore(xs + front, last, g);
    if front == [] {
      assert xs + front == xs;
    } else {
      FirstSlotsAppend(xs, front, g, k);
    }
  }

  lemma {:induction false} FirstSlotsElsewhere(xs: seq<Frame>, ys: seq<Frame>, g: Generation)
    requires forall f :: f in ys ==> At(f) != g
    ensures FirstSlots(xs + ys, g) == FirstSlots(xs, g)
  {
    if ys == [] {
      assert xs + ys == xs;
    } else {
      var front, last := ys[..|ys| - 1], ys[|ys| - 1];
      assert last in ys && xs + ys == (xs + front) + [last];
      FirstSlotsElsewhere(xs, front, g);
      FirstSlotsMore(xs + front, last, g);
    }
  }

  lemma {:induction false} BlocksInOrder(xs: seq<Frame>, g: Generation, order: seq<SlotKey>)
    requires Distinct(order) && forall k :: k in order ==> Only(xs, g, k) != []
    ensures FirstSlots(Blocks(xs, g, order), g) == order
  {
    if order != [] {
      var front, k := order[..|order| - 1], order[|order| - 1];
      BlocksInOrder(xs, g, front);
      assert k in order && k !in front;
      forall f | f in Only(xs, g, k) ensures At(f) == g && KeyOf(f) == k {
        OnlyCounts(xs, g, k, f);
        assert f in multiset(Only(xs, g, k));
      }
      FirstSlotsAppend(Blocks(xs, g, front), Only(xs, g, k), g, k);
    }
  }

  /** Any listing of the slots of `g` is the one that some rearrangement of the log produces. */
  lemma ListingIsRealised(xs: seq<Frame>, gx: Grouped, g: Generation, order: seq<SlotKey>)
    returns (ys: seq<Frame>, gy: Grouped)
    requires Collect(xs) == Some(gx) && g in gx && Lists(order, gx[g].slots)
    ensures multiset(ys) == multiset(xs) && Collect(ys) == Some(gy)
    ensures g in gy && gy[g] == Group(order, gx[g].slots)
  {
    Collected(xs);
    ys := Arrange(xs, g, order);
    forall f | f in xs && At(f) == g ensures KeyOf(f) in order {
      assert Holds(gx, f);
    }
    ArrangePermutes(xs, g, order);
    FailureForgetsOrder(xs, ys);
    gy := Collect(ys).value;
    SlotsForgetOrder(xs, ys, gx, gy);
    forall k | k in order ensures Only(xs, g, k) != [] {
      var i :| i in gx[g].slots[k].chunks;
      assert Carried(xs, g, k, i);
      var f :| f in xs && At(f) == g && KeyOf(f) == k && f.index == i;
      OnlyCounts(xs, g, k, f);
      assert f in multiset(Only(xs, g, k));
    }
    BlocksInOrder(xs, g, order);
    forall f | f in Others(xs, g) ensures At(f) != g {
      OthersCounts(xs, g, f);
      assert f in multiset(Others(xs, g));
    }
    FirstSlotsElsewhere(Blocks(xs, g, order), Others(xs, g), g);
    Collected(ys);
  }

  // ----- When extraction depends on the order -----

  /** Every rearrangement of the log extracts the same thing. */
  ghost predicate OrderFree(decode: Decoder, xs: seq<Frame>) {
    forall ys, r, s :: multiset(ys) == multiset(xs) && Extracts(decode, xs, r) && Extracts(decode, ys, s) ==> r == s
  }

  /** Some order of arrival makes the generation complete. */
  ghost predicate Completable(decode: Decoder, slots: map<SlotKey, Slot>) {
    exists order :: Lists(order, slots) && Assemble(decode, Group(order, slots)).Some?
  }

  /** The newest generation that any order of arrival makes complete. */
  ghost predicate NewestCompletable(decode: Decoder, grouped: Grouped, g: Generation) {
    && g in grouped && Completable(decode, grouped[g].slots)
    && forall h :: h in grouped && Newer(h, g) ==> !Completable(decode, grouped[h].slots)
  }

  lemma {:induction false} FirstSlotsDistinct(frames: seq<Frame>, g: Generation)
    ensures Distinct(FirstSlots(frames, g))
  {
    if frames != [] {
      FirstSlotsDistinct(frames[..|frames| - 1], g);
    }
  }

  lemma GroupsList(frames: seq<Frame>, grouped: Grouped, g: Generation)
    requires Collect(frames) == Some(grouped) && g in grouped
    ensures Lists(grouped[g].order, grouped[g].slots)
  {
    Collected(frames);
    FirstSlotsDistinct(frames, g);
  }

  lemma AssembledIsCompletable(decode: Decoder, frames: seq<Frame>, grouped: Grouped, g: Generation)
    requires Collect(frames) == Some(grouped) && g in grouped && Assemble(decode, grouped[g]).Some?
    ensures Completable(decode, grouped[g].slots)
  {
    GroupsList(frames, grouped, g);
    assert grouped[g] == Group(grouped[g].order, grouped[g].slots);
  }

  lemma {:induction false} NewestOf(gs: set<Generation>) returns (newest: Generation)
    requires gs != {}
    ensures newest in gs && forall h :: h in gs ==> !Newer(h, newest)
    decreases |gs|
  {
    var first :| first in gs;
    var rest := gs - {first};
    assert forall h :: h in gs ==> h == first || h in rest;
    if rest == {} {
      newest := first;
    } else {
      var other := NewestOf(rest);
      newest := if Newer(other, first) then other else first;
    }
  }

  lemma SomethingIsExtracted(decode: Decoder, frames: seq<Frame>) returns (r: Option<Snapshot>)
    ensures Extracts(decode, frames, r)
  {
    if Collect(frames).None? {
      return None;
    }
    var grouped := Collect(frames).value;
    var complete := set g | g in grouped && Assemble(decode, grouped[g]).Some?;
    if complete == {} {
      forall g | g in grouped ensures Assemble(decode, grouped[g]) == None {
        assert g !in complete;
      }
      return None;
    }
    var g := NewestOf(complete);
    r := Some(Snapshot(g, Assemble(decode, grouped[g]).value));
    forall h | h in grouped && Newer(h, g) ensures Assemble(decode, grouped[h]) == None {
      assert h !in complete;
    }
  }

  lemma NewestCompletableExists(decode: Decoder, grouped: Grouped, g: Generation) returns (newest: Generation)
    requires g in grouped && Completable(decode, grouped[g].slots)
    ensures NewestCompletable(decode, grouped, newest)
  {
    var gs := set h | h in grouped && Completable(decode, grouped[h].slots);
    assert g in gs;
    newest := NewestOf(gs);
    forall h | h in grouped && Newer(h, newest) ensures !Completable(decode, grouped[h].slots) {
      assert h !in gs;
    }
  }

  /** `r` is generation `g` with the records of the given listing. */
  ghost predicate IsListing(
      decode: Decoder, slots: map<SlotKey, Slot>, g: Generation, order: seq<SlotKey>, r: Option<Snapshot>)
  {
    r.Some? && r.value.generation == g && Assemble(decode, Group(order, slots)) == Some(r.value.records)
  }

  /** Without colliding ids the newest completable generation is extracted, whatever the order. */
  lemma NewestIsExtracted(
      decode: Decoder, xs: seq<Frame>, gx: Grouped, g: Generation, order: seq<SlotKey>, r: Option<Snapshot>)
    requires Collect(xs) == Some(gx) && g in gx && Lists(order, gx[g].slots)
    ensures NewestCompletable(decode, gx, g) && NoCollision(gx[g].slots) && Extracts(decode, xs, r)
            && Assemble(decode, Group(order, gx[g].slots)).Some?
            ==> IsListing(decode, gx[g].slots, g, order, r)
  {
    if NewestCompletable(decode, gx, g) && NoCollision(gx[g].slots) && Extracts(decode, xs, r)
       && Assemble(decode, Group(order, gx[g].slots)).Some?
    {
      GroupsList(xs, gx, g);
      RecordsForgetOrder(decode, order, gx[g].order, gx[g].slots);
      assert Assemble(decode, gx[g]) == Assemble(decode, Group(order, gx[g].slots));
      assert r.Some?;
      AssembledIsCompletable(decode, xs, gx, r.value.generation);
      NewerIsTotal(g, r.value.generation);
    }
  }

  lemma SameCompletables(decode: Decoder, gx: Grouped, gy: Grouped, g: Generation)
    requires gx.Keys == gy.Keys && forall h :: h in gx ==> gx[h].slots == gy[h].slots
    ensures NewestCompletable(decode, gx, g) <==> NewestCompletable(decode, gy, g)
  {
  }

  lemma SameExtraction(
      decode: Decoder, xs: seq<Frame>, ys: seq<Frame>, gx: Grouped, r: Option<Snapshot>, s: Option<Snapshot>)
    requires multiset(xs) == multiset(ys) && Collect(xs) == Some(gx)
    requires forall g :: NewestCompletable(decode, gx, g) ==> NoCollision(gx[g].slots)
    requires Extracts(decode, xs, r) && Extracts(decode, ys, s)
    ensures r == s
  {
    FailureForgetsOrder(xs, ys);
    var gy := Collect(ys).value;
    SlotsForgetOrder(xs, ys, gx, gy);
    if c :| c in gx && Completable(decode, gx[c].slots) {
      var g := NewestCompletableExists(decode, gx, c);
      SameCompletables(decode, gx, gy, g);
      var order :| Lists(order, gx[g].slots) && Assemble(decode, Group(order, gx[g].slots)).Some?;
      NewestIsExtracted(decode, xs, gx, g, order, r);
      NewestIsExtracted(decode, ys, gy, g, order, s);
    } else {
      if r.Some? {
        AssembledIsCompletable(decode, xs, gx, r.value.generation);
      }
      if s.Some? {
        AssembledIsCompletable(decode, ys, gy, s.value.generation);
      }
    }
  }

  /** Some rearrangement extracts `g` with the records of the given listing, if that listing is complete. */
  lemma ListingIsExtracted(decode: Decoder, xs: seq<Frame>, gx: Grouped, g: Generation, order: seq<SlotKey>)
    returns (ys: seq<Frame>, r: Option<Snapshot>)
    requires Collect(xs) == Some(gx) && NewestCompletable(decode, gx, g) && Lists(order, gx[g].slots)
    ensures multiset(ys) == multiset(xs) && Extracts(decode, ys, r)
    ensures var found := Assemble(decode, Group(order, gx[g].slots));
            if found.Some? then r == Some(Snapshot(g, found.value)) else r.None? || r.value.generation != g
  {
    var gy;
    ys, gy := ListingIsRealised(xs, gx, g, order);
    SlotsForgetOrder(xs, ys, gx, gy);
    SameCompletables(decode, gx, gy, g);
    r := SomethingIsExtracted(decode, ys);
    if Assemble(decode, Group(order, gx[g].slots)).Some? {
      assert r.Some?;
      AssembledIsCompletable(decode, ys, gy, r.value.generation);
      NewerIsTotal(g, r.value.generation);
    }
  }

  lemma AssembledDiffer(decode: Decoder, o: seq<SlotKey>, p: seq<SlotKey>, slots: map<SlotKey, Slot>)
    requires RecordsOf(decode, o, slots) != RecordsOf(decode, p, slots)
    requires Assemble(decode, Group(o, slots)).Some?
    ensures Assemble(decode, Group(p, slots)) != Assemble(decode, Group(o, slots))
  {
  }

  lemma CollisionMatters(decode: Decoder, xs: seq<Frame>, gx: Grouped, g: Generation)
    requires Collect(xs) == Some(gx)
    ensures NewestCompletable(decode, gx, g) && !NoCollision(gx[g].slots) ==> !OrderFree(decode, xs)
  {
    if NewestCompletable(decode, gx, g) && !NoCollision(gx[g].slots) {
      var slots := gx[g].slots;
      var a, b :| a in slots && b in slots && RecordId(a) == RecordId(b) && a != b;
      var o :| Lists(o, slots) && Assemble(decode, Group(o, slots)).Some?;
      var p := CollisionShows(decode, o, slots, a, b);
      var ys, r := ListingIsExtracted(decode, xs, gx, g, o);
      var zs, s := ListingIsExtracted(decode, xs, gx, g, p);
      assert r != s by {
        AssembledDiffer(decode, o, p, slots);
      }
      var t := SomethingIsExtracted(decode, xs);
      assert t != r || t != s;
    }
  }

  /**
   * Extraction is independent of the order of the frames exactly if, in the newest generation that some
   * order completes, no two slots share a record id.
   */
  lemma OrderFreeIff(decode: Decoder, xs: seq<Frame>)
    ensures Collect(xs).None? ==> OrderFree(decode, xs)
    ensures Collect(xs).Some? ==>
              var grouped := Collect(xs).value;
               (OrderFree(decode, xs)
                <==> forall g :: NewestCompletable(decode, grouped, g) ==> NoCollision(grouped[g].slots))
  {
    if Collect(xs).None? {
      forall ys | multiset(ys) == multiset(xs) ensures Collect(ys).None? {
        FailureForgetsOrder(xs, ys);
      }
    } else {
      var gx := Collect(xs).value;
      if forall g :: NewestCompletable(decode, gx, g) ==> NoCollision(gx[g].slots) {
        forall ys, r, s | multiset(ys) == multiset(xs) && Extracts(decode, xs, r) && Extracts(decode, ys, s)
          ensures r == s
        {
          SameExtraction(decode, xs, ys, gx, r, s);
        }
      } else {
        var g :| NewestCompletable(decode, gx, g) && !NoCollision(gx[g].slots);
        CollisionMatters(decode, xs, gx, g);
      }
    }
  }

  /** What a reader of the log can check beforehand: no two frames of one generation share an id across slots. */
  lemma DistinctIdsAreOrderFree(decode: Decoder, xs: seq<Frame>)
    requires forall f, h :: f in xs && h in xs && At(f) == At(h) && RecordId(KeyOf(f)) == RecordId(KeyOf(h)) ==>
               KeyOf(f) == KeyOf(h)
    ensures OrderFree(decode, xs)
  {
    OrderFreeIff(decode, xs);
    Collected(xs);
    if Collect(xs).Some? {
      forall g | g in Collect(xs).value ensures NoCollision(Collect(xs).value[g].slots) {
        SlotsHaveFrames(xs, Collect(xs).value, g);
      }
    }
  }

  lemma SlotsHaveFrames(xs: seq<Frame>, grouped: Grouped, g: Generation)
    requires Backed(xs, grouped) && g in grouped
    ensures forall k :: k in grouped[g].slots ==> exists f :: f in xs && At(f) == g && KeyOf(f) == k
  {
    forall k | k in grouped[g].slots ensures exists f :: f in xs && At(f) == g && KeyOf(f) == k {
      var i :| i in grouped[g].slots[k].chunks;
      assert Carried(xs, g, k, i);
    }
  }

  // ----- A cut text alone -----

  /** The frames of a cut text, in any order, are collected, and spell the text out again. */
  lemma CutRestores(text: string, size: nat, g: Generation, k: SlotKey, length: nat, digest: string, log: seq<Frame>)
    requires size > 0 && multiset(log) == multiset(Cut(text, size, g, k, length, digest))
    ensures Collect(log).Some?
    ensures var grouped := Collect(log).value;
            && g in grouped && k in grouped[g].slots && Whole(grouped[g].slots[k])
            && Joined(grouped[g].slots[k].chunks, grouped[g].slots[k].count) == text
  {
    var frames := Cut(text, size, g, k, length, digest);
    TidyPermutes(frames, log);
    Collected(log);
    MembersAgree(log, frames);
    ReassemblyRestores(text, size, g, k, length, digest, log, Collect(log).value);
  }
}
