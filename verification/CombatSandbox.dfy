/** Reassembly of chunked sandbox records, and the newest complete generation of a log. */
module CombatSandbox {
  import opened Common

  /** One well-formed chunk frame of the log, as matched. */
  datatype Frame = Frame(
    battle: nat, generation: nat, section: string, key: string,
    index: nat, count: nat, length: nat, digest: string, payload: string)

  datatype Generation = Generation(battle: nat, number: nat)

  datatype SlotKey = SlotKey(section: string, key: string)

  datatype Slot = Slot(count: nat, length: nat, digest: string, chunks: map<nat, string>)

  /** Slots of one generation, with the order in which they first appeared. */
  datatype Group = Group(order: seq<SlotKey>, slots: map<SlotKey, Slot>)

  type Grouped = map<Generation, Group>

  function At(f: Frame): Generation {
    Generation(f.battle, f.generation)
  }

  function KeyOf(f: Frame): SlotKey {
    SlotKey(f.section, f.key)
  }

  // ----- Collecting chunks -----

  /** Add one frame; `None` stands for the raised errors. */
  function AddFrame(grouped: Grouped, f: Frame): Option<Grouped> {
    if f.count <= 0 || f.index >= f.count then None
    else
      var group := if At(f) in grouped then grouped[At(f)] else Group([], map[]);
      var known := KeyOf(f) in group.slots;
      var slot := if known then group.slots[KeyOf(f)] else Slot(f.count, f.length, f.digest, map[]);
      if slot.count != f.count || slot.length != f.length || slot.digest != f.digest then None
      else if f.index in slot.chunks then None
      else Some(grouped[At(f) := Group(
        if known then group.order else group.order + [KeyOf(f)],
        group.slots[KeyOf(f) := slot.(chunks := slot.chunks[f.index := f.payload])])])
  }

  function Collect(frames: seq<Frame>): Option<Grouped> {
    if frames == [] then Some(map[])
    else match Collect(frames[..|frames| - 1])
      case None => None
      case Some(grouped) => AddFrame(grouped, frames[|frames| - 1])
  }

  /** Two frames of one slot must agree on its description and carry different chunks. */
  predicate Compatible(f: Frame, g: Frame) {
    At(f) == At(g) && KeyOf(f) == KeyOf(g) ==>
      f.count == g.count && f.length == g.length && f.digest == g.digest && f.index != g.index
  }

  ghost predicate Tidy(frames: seq<Frame>) {
    && (forall f :: f in frames ==> f.index < f.count)
    && (forall i, j :: 0 <= i < j < |frames| ==> Compatible(frames[i], frames[j]))
  }

  /** The slots in the order of their first frames. */
  function FirstSlots(frames: seq<Frame>, g: Generation): seq<SlotKey> {
    if frames == [] then []
    else
      var before, last := FirstSlots(frames[..|frames| - 1], g), frames[|frames| - 1];
      if At(last) == g && KeyOf(last) !in before then before + [KeyOf(last)] else before
  }

  /** The frame's chunk is in its place. */
  predicate Holds(grouped: Grouped, f: Frame) {
    && At(f) in grouped && KeyOf(f) in grouped[At(f)].slots
    && var slot := grouped[At(f)].slots[KeyOf(f)];
    && slot.count == f.count && slot.length == f.length && slot.digest == f.digest
    && f.index in slot.chunks && slot.chunks[f.index] == f.payload
  }

  ghost predicate Carried(frames: seq<Frame>, g: Generation, k: SlotKey, index: nat) {
    exists f :: f in frames && At(f) == g && KeyOf(f) == k && f.index == index
  }

  ghost predicate HoldsAll(frames: seq<Frame>, grouped: Grouped) {
    forall f :: f in frames ==> Holds(grouped, f)
  }

  ghost predicate InOrder(frames: seq<Frame>, grouped: Grouped) {
    && (forall g :: g in grouped ==> grouped[g].order == FirstSlots(frames, g) && grouped[g].order != [])
    && (forall g, k :: g in grouped ==> (k in grouped[g].slots <==> k in grouped[g].order))
  }

  ghost predicate Backed(frames: seq<Frame>, grouped: Grouped) {
    && (forall g, k :: g in grouped && k in grouped[g].slots ==> grouped[g].slots[k].chunks != map[])
    && (forall g, k, index :: g in grouped && k in grouped[g].slots && index in grouped[g].slots[k].chunks ==>
          Carried(frames, g, k, index))
  }

  /** The groups hold every frame's chunk and nothing else. */
  ghost predicate Describes(frames: seq<Frame>, grouped: Grouped) {
    HoldsAll(frames, grouped) && InOrder(frames, grouped) && Backed(frames, grouped)
  }

  lemma AddAccepts(front: seq<Frame>, grouped: Grouped, f: Frame)
    requires Describes(front, grouped)
    ensures AddFrame(grouped, f).Some? <==> f.index < f.count && forall g :: g in front ==> Compatible(g, f)
  {
    if AddFrame(grouped, f).Some? {
      forall g | g in front ensures Compatible(g, f) {
        assert Holds(grouped, g);
      }
    } else if f.index < f.count {
      var slot := grouped[At(f)].slots[KeyOf(f)];
      if f.index in slot.chunks {
        assert Carried(front, At(f), KeyOf(f), f.index);
      } else {
        var index :| index in slot.chunks;
        assert Carried(front, At(f), KeyOf(f), index);
        var g :| g in front && At(g) == At(f) && KeyOf(g) == KeyOf(f) && g.index == index;
        assert Holds(grouped, g) && !Compatible(g, f);
      }
    }
  }

  lemma FirstSlotsMore(front: seq<Frame>, f: Frame, g: Generation)
    ensures FirstSlots(front + [f], g)
            == if At(f) == g && KeyOf(f) !in FirstSlots(front, g) then FirstSlots(front, g) + [KeyOf(f)]
               else FirstSlots(front, g)
  {
    assert (front + [f])[..|front|] == front;
  }

  lemma {:induction false} FirstSlotsEmpty(front: seq<Frame>, grouped: Grouped, g: Generation)
    requires Describes(front, grouped) && g !in grouped
    ensures FirstSlots(front, g) == []
  {
    NoFrames(front, g);
  }

  lemma {:induction false} NoFrames(front: seq<Frame>, g: Generation)
    requires forall f :: f in front ==> At(f) != g
    ensures FirstSlots(front, g) == []
  {
    if front != [] {
      NoFrames(front[..|front| - 1], g);
    }
  }

  lemma CarriedMore(front: seq<Frame>, f: Frame, g: Generation, k: SlotKey, index: nat)
    ensures Carried(front + [f], g, k, index)
            <==> Carried(front, g, k, index) || (At(f) == g && KeyOf(f) == k && f.index == index)
  {
    if c :| c in front && At(c) == g && KeyOf(c) == k && c.index == index {
      assert c in front + [f];
    }
    assert f in front + [f];
  }

  lemma AddHolds(front: seq<Frame>, grouped: Grouped, f: Frame)
    requires HoldsAll(front, grouped) && AddFrame(grouped, f).Some?
    ensures HoldsAll(front + [f], AddFrame(grouped, f).value)
  {
    forall c | c in front + [f] ensures Holds(AddFrame(grouped, f).value, c) {
      if c in front {
        assert Holds(grouped, c);
      }
    }
  }

  lemma AddKeepsOrder(front: seq<Frame>, grouped: Grouped, f: Frame)
    requires Describes(front, grouped) && AddFrame(grouped, f).Some?
    ensures InOrder(front + [f], AddFrame(grouped, f).value)
  {
    var after := AddFrame(grouped, f).value;
    forall g | g in after ensures after[g].order == FirstSlots(front + [f], g) && after[g].order != [] {
      FirstSlotsMore(front, f, g);
      if g !in grouped {
        FirstSlotsEmpty(front, grouped, g);
      }
    }
  }

  lemma AddIsBacked(front: seq<Frame>, grouped: Grouped, f: Frame)
    requires Backed(front, grouped) && AddFrame(grouped, f).Some?
    ensures Backed(front + [f], AddFrame(grouped, f).value)
  {
    var after := AddFrame(grouped, f).value;
    forall g, k, index | g in after && k in after[g].slots && index in after[g].slots[k].chunks
      ensures Carried(front + [f], g, k, index)
    {
      CarriedMore(front, f, g, k, index);
      if !(At(f) == g && KeyOf(f) == k && f.index == index) {
        assert Carried(front, g, k, index);
      }
    }
  }

  lemma AddDescribes(front: seq<Frame>, grouped: Grouped, f: Frame)
    requires Describes(front, grouped) && AddFrame(grouped, f).Some?
    ensures Describes(front + [f], AddFrame(grouped, f).value)
  {
    AddHolds(front, grouped, f);
    AddKeepsOrder(front, grouped, f);
    AddIsBacked(front, grouped, f);
  }

  /** Collecting succeeds exactly on tidy logs, and then holds exactly their chunks. */
  lemma {:induction false} Collected(frames: seq<Frame>)
    ensures Collect(frames).Some? <==> Tidy(frames)
    ensures Collect(frames).Some? ==> Describes(frames, Collect(frames).value)
  {
    if frames != [] {
      var front, f := frames[..|frames| - 1], frames[|frames| - 1];
      assert frames == front + [f];
      Collected(front);
      TidyMore(front, f);
      if Collect(front).Some? {
        AddAccepts(front, Collect(front).value, f);
        if Collect(frames).Some? {
          AddDescribes(front, Collect(front).value, f);
        }
      }
    }
  }

  lemma TidyMore(front: seq<Frame>, f: Frame)
    ensures Tidy(front + [f]) <==> Tidy(front) && f.index < f.count && forall g :: g in front ==> Compatible(g, f)
  {
    var all := front + [f];
    assert all[|front|] == f;
    if Tidy(all) {
      forall g | g in front ensures Compatible(g, f) {
        var i :| 0 <= i < |front| && front[i] == g;
        assert all[i] == g;
      }
      forall i, j | 0 <= i < j < |front| ensures Compatible(front[i], front[j]) {
        assert all[i] == front[i] && all[j] == front[j];
      }
      forall g | g in front ensures g.index < g.count {
        assert g in all;
      }
    }
    if Tidy(front) && f.index < f.count && forall g :: g in front ==> Compatible(g, f) {
      forall i, j | 0 <= i < j < |all| ensures Compatible(all[i], all[j]) {
        assert all[i] in front;
      }
    }
  }
}
