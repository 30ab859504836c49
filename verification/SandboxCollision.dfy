/** Logs on which the order of the chunk frames decides what is extracted. */
module SandboxCollision {
  import opened Common
  import opened CombatSandbox
  import opened SandboxRecords
  import opened SandboxOrder
  import opened SandboxManifest

  // ----- Two records with one id, whatever decodes them -----

  /** A record as a frame carries it: encoded text, length and digest. */
  datatype Sealed = Sealed(text: string, length: nat, digest: string)

  /** A record in one chunk. */
  function Single(g: Generation, k: SlotKey, s: Sealed): Frame {
    Frame(g.battle, g.number, k.section, k.key, 0, 1, s.length, s.digest, s.text)
  }

  /** `s` decodes to a record of this section and key. */
  predicate ReadsAs(decode: Decoder, s: Sealed, k: SlotKey) {
    var r := decode(s.text, s.length, s.digest);
    r.Some? && r.value.section == Some(k.section) && r.value.key == Some(k.key)
  }

  /** `s` decodes to a manifest that expects no records. */
  predicate ReadsAsManifest(decode: Decoder, s: Sealed) {
    && ReadsAs(decode, s, ROOT)
    && var p := decode(s.text, s.length, s.digest).value.payload;
    p.Object? && p.expectedRecords == Strings([])
  }

  function SlotOf(s: Sealed): Slot {
    Slot(1, s.length, s.digest, map[0 := s.text])
  }

  lemma SlotIsRead(decode: Decoder, slots: map<SlotKey, Slot>, k: SlotKey, s: Sealed)
    requires k in slots && slots[k] == SlotOf(s) && ReadsAs(decode, s, k)
    ensures Spells(decode, k, slots, decode(s.text, s.length, s.digest).value)
    ensures Decodes(decode, k, slots)
  {
    assert Joined(slots[k].chunks, 0) == "";
    assert Joined(slots[k].chunks, 1) == s.text;
    SpellsIff(decode, k, slots, decode(s.text, s.length, s.digest).value);
  }

  function One(g: Generation, order: seq<SlotKey>, slots: map<SlotKey, Slot>): Grouped {
    map[g := Group(order, slots)]
  }

  lemma FirstSingle(g: Generation, k: SlotKey, s: Sealed)
    ensures Collect([Single(g, k, s)]) == Some(One(g, [k], map[k := SlotOf(s)]))
  {
    assert [Single(g, k, s)][..0] == [];
    assert map[][0 := s.text] == SlotOf(s).chunks;
    assert [] + [k] == [k];
    assert map[][k := SlotOf(s)] == map[k := SlotOf(s)];
    assert map[][g := Group([k], map[k := SlotOf(s)])] == One(g, [k], map[k := SlotOf(s)]);
  }

  lemma NextSingle(
      front: seq<Frame>, g: Generation, order: seq<SlotKey>, slots: map<SlotKey, Slot>, k: SlotKey, s: Sealed)
    requires Collect(front) == Some(One(g, order, slots)) && k !in slots
    ensures Collect(front + [Single(g, k, s)]) == Some(One(g, order + [k], slots[k := SlotOf(s)]))
  {
    assert (front + [Single(g, k, s)])[..|front|] == front;
    assert map[][0 := s.text] == SlotOf(s).chunks;
    assert One(g, order, slots)[g := Group(order + [k], slots[k := SlotOf(s)])]
        == One(g, order + [k], slots[k := SlotOf(s)]);
  }

  /** A manifest and two more records, each in a frame of its own. */
  function ThreeFrames(g: Generation, m: Sealed, a: SlotKey, x: Sealed, b: SlotKey, y: Sealed): seq<Frame> {
    [Single(g, ROOT, m)] + [Single(g, a, x)] + [Single(g, b, y)]
  }

  function ThreeSlots(m: Sealed, a: SlotKey, x: Sealed, b: SlotKey, y: Sealed): map<SlotKey, Slot> {
    map[ROOT := SlotOf(m)][a := SlotOf(x)][b := SlotOf(y)]
  }

  lemma ThreeFramesCollect(g: Generation, m: Sealed, a: SlotKey, x: Sealed, b: SlotKey, y: Sealed)
    requires a != ROOT && b != ROOT && a != b
    ensures Collect(ThreeFrames(g, m, a, x, b, y)) == Some(One(g, [ROOT] + [a] + [b], ThreeSlots(m, a, x, b, y)))
  {
    FirstSingle(g, ROOT, m);
    NextSingle([Single(g, ROOT, m)], g, [ROOT], map[ROOT := SlotOf(m)], a, x);
    NextSingle([Single(g, ROOT, m)] + [Single(g, a, x)], g, [ROOT] + [a], map[ROOT := SlotOf(m)][a := SlotOf(x)], b, y);
  }

  /** Only the manifest has the manifest's id, so it cannot be one of two with the same id. */
  lemma NeitherIsRoot(a: SlotKey, b: SlotKey)
    requires a != b && RecordId(a) == RecordId(b)
    ensures a != ROOT && b != ROOT
  {
    OnlyRootIsManifest(a);
    OnlyRootIsManifest(b);
  }

  /**
   * However records are decoded: two different section and key pairs with one id, each decoding to its own,
   * beside a manifest that expects nothing, are extracted differently when their frames change places.
   */
  lemma CollidingLogDependsOnOrder(
      decode: Decoder, g: Generation, m: Sealed, a: SlotKey, x: Sealed, b: SlotKey, y: Sealed)
    requires a != b && RecordId(a) == RecordId(b)
    requires ReadsAsManifest(decode, m) && ReadsAs(decode, x, a) && ReadsAs(decode, y, b)
    ensures !OrderFree(decode, ThreeFrames(g, m, a, x, b, y))
  {
    var log, slots := ThreeFrames(g, m, a, x, b, y), ThreeSlots(m, a, x, b, y);
    NeitherIsRoot(a, b);
    ThreeFramesCollect(g, m, a, x, b, y);
    SlotIsRead(decode, slots, ROOT, m);
    SlotIsRead(decode, slots, a, x);
    SlotIsRead(decode, slots, b, y);
    var gx := One(g, [ROOT] + [a] + [b], slots);
    assert gx[g].slots == slots;
    DirectCompletable(decode, log, gx, g, []);
    assert NothingMissing(decode, slots, []);
    assert NewestCompletable(decode, gx, g);
    assert !NoCollision(slots) by {
      assert a in slots && b in slots;
    }
    CollisionMatters(decode, log, gx, g);
  }

  // ----- Such logs exist -----

  const A := SlotKey("a", "b:c")
  const B := SlotKey("a:b", "c")

  /** Section "a" with key "b:c", and section "a:b" with key "c", share the record id "a:b:c". */
  lemma IdsCollide()
    ensures A != B && RecordId(A) == RecordId(B)
  {
    assert |A.section| != |B.section|;
    assert RecordId(A) == "a:b:c" == RecordId(B);
  }

  /** No digest stands for two texts. */
  ghost predicate DigestsTell(decode: Decoder) {
    forall s, t, l, m, d :: decode(s, l, d).Some? && decode(t, m, d).Some? ==> s == t
  }

  predicate All(s: string, p: char -> bool) {
    forall i :: 0 <= i < |s| ==> p(s[i])
  }

  /** The log's frame pattern: names without a bar, a digest of 64 hexadecimal digits, unpadded base64url. */
  predicate Matches(f: Frame) {
    && f.section != "" && All(f.section, c => c != '|') && f.key != "" && All(f.key, c => c != '|')
    && |f.digest| == 64 && All(f.digest, c => '0' <= c <= '9' || 'a' <= c <= 'f')
    && f.payload != ""
    && All(f.payload, c => 'A' <= c <= 'Z' || 'a' <= c <= 'z' || '0' <= c <= '9' || c == '_' || c == '-')
  }

  /** A digest all of whose digits are `c`. */
  function Digits(c: char): (d: string)
    ensures |d| == 64 && forall i :: 0 <= i < |d| ==> d[i] == c
  {
    seq(64, i => c)
  }

  function SealedRoot(): Sealed { Sealed("bQ", 1, Digits('0')) }
  function SealedA(): Sealed { Sealed("eA", 1, Digits('1')) }
  function SealedB(): Sealed { Sealed("eQ", 1, Digits('2')) }

  /** Knows just three records, each under a digest of its own. */
  function Knows(text: string, length: nat, digest: string): Option<Record> {
    var s := Sealed(text, length, digest);
    if s == SealedRoot() then
      Some(Record(Some("manifest"), Some("root"), Object(Strings([]), Absent, Absent, Absent)))
    else if s == SealedA() then Some(Record(Some("a"), Some("b:c"), NoObject))
    else if s == SealedB() then Some(Record(Some("a:b"), Some("c"), NoObject))
    else None
  }

  lemma DigestsDiffer()
    ensures Digits('0') != Digits('1') && Digits('0') != Digits('2') && Digits('1') != Digits('2')
  {
    assert Digits('0')[0] == '0' && Digits('1')[0] == '1' && Digits('2')[0] == '2';
  }

  lemma KnowsTells()
    ensures DigestsTell(Knows)
  {
    DigestsDiffer();
  }

  lemma FramesMatch(g: Generation)
    ensures Matches(Single(g, ROOT, SealedRoot()))
    ensures Matches(Single(g, A, SealedA())) && Matches(Single(g, B, SealedB()))
  {
  }

  lemma KnowsReads()
    ensures ReadsAsManifest(Knows, SealedRoot()) && ReadsAs(Knows, SealedA(), A) && ReadsAs(Knows, SealedB(), B)
  {
    DigestsDiffer();
  }

  /** Frames that match the log's pattern, under digests that tell texts apart, can depend on their order. */
  lemma CollidingLogExists(g: Generation)
    ensures DigestsTell(Knows)
    ensures var log := ThreeFrames(g, SealedRoot(), A, SealedA(), B, SealedB());
            (forall f :: f in log ==> Matches(f)) && !OrderFree(Knows, log)
  {
    KnowsTells();
    FramesMatch(g);
    KnowsReads();
    IdsCollide();
    hide Matches, DigestsTell, Single, ReadsAs, ReadsAsManifest, RecordId;
    CollidingLogDependsOnOrder(Knows, g, SealedRoot(), A, SealedA(), B, SealedB());
  }
}
