/**
 * The reachability check of a vat's baggage:
 * packages/SwingSet/tools/baggage-check.js.
 */
module BaggageCheck {
  import opened Wrappers

  /** A stored entry of a collection: what follows the collection's key root, and the slots of its value. */
  datatype Row = Row(key: string, slots: seq<string>)

  /** The vat store. An object's record holds the slots of each of its properties. */
  datatype Db = Db(collections: map<nat, seq<Row>>, objects: map<string, seq<seq<string>>>)

  const KIND_HANDLE_BASEREF: nat := 1
  const BIGMAP_BASEREF: nat := 6
  const BIGSET_BASEREF: nat := 8

  // ----------------------------------------------------------- slot syntax

  predicate IsDigit(c: char) { '0' <= c <= '9' }

  predicate AllDigits(s: string) {
    s != [] && forall i :: 0 <= i < |s| ==> IsDigit(s[i])
  }

  function ToNumber(s: string): nat
    requires forall i :: 0 <= i < |s| ==> IsDigit(s[i])
  {
    if s == [] then 0
    else
      assert IsDigit(s[|s| - 1]);
      10 * ToNumber(s[..|s| - 1]) + (s[|s| - 1] as int - '0' as int)
  }

  /** The position of the first c in s, or |s|. */
  function IndexOf(s: string, c: char): (k: nat)
    ensures k <= |s| && (k < |s| ==> s[k] == c) && forall i :: 0 <= i < k ==> s[i] != c
  {
    if s == [] then 0 else if s[0] == c then 0 else 1 + IndexOf(s[1..], c)
  }

  /** Matches o+d<digits>/<digits> and nothing else, so no slot with a facet or a leading minus. */
  function ExtractDurableRefParts(ref: string): Option<(nat, nat)> {
    if |ref| < 3 || ref[..3] != "o+d" then None
    else
      var rest := ref[3..];
      var slash := IndexOf(rest, '/');
      if slash == |rest| then None
      else if AllDigits(rest[..slash]) && AllDigits(rest[slash + 1..])
      then Some((ToNumber(rest[..slash]), ToNumber(rest[slash + 1..])))
      else None
  }

  /** The pattern, both ways: two runs of digits, and their numbers. */
  lemma ExtractMatchesPattern(ref: string, a: string, b: string)
    requires AllDigits(a) && AllDigits(b)
    ensures ref == "o+d" + a + "/" + b ==> ExtractDurableRefParts(ref) == Some((ToNumber(a), ToNumber(b)))
  {
    if ref == "o+d" + a + "/" + b {
      assert ref[..3] == "o+d" && ref[3..] == a + "/" + b;
      var slash := IndexOf(ref[3..], '/');
      assert ref[3..][|a|] == '/';
      assert forall i :: 0 <= i < |a| ==> ref[3..][i] == a[i] && IsDigit(a[i]);
      assert slash == |a|;
      assert ref[3..][..slash] == a && ref[3..][slash + 1..] == b;
    }
  }

  lemma ExtractOnlyPattern(ref: string) returns (a: string, b: string)
    requires ExtractDurableRefParts(ref).Some?
    ensures AllDigits(a) && AllDigits(b) && ref == "o+d" + a + "/" + b
    ensures ExtractDurableRefParts(ref) == Some((ToNumber(a), ToNumber(b)))
  {
    hide ToNumber, AllDigits;
    var rest := ref[3..];
    var slash := IndexOf(rest, '/');
    a, b := rest[..slash], rest[slash + 1..];
    assert a + ("/" + b) == a + "/" + b;
    assert rest == a + ("/" + b);
    assert ref == "o+d" + rest;
    assert "o+d" + (a + "/" + b) == "o+d" + a + "/" + b;
  }

  // ------------------------------------------- the pattern on its own terms

  ghost function DigitValue(c: char): nat {
    match c
    case '1' => 1
    case '2' => 2
    case '3' => 3
    case '4' => 4
    case '5' => 5
    case '6' => 6
    case '7' => 7
    case '8' => 8
    case '9' => 9
    case _ => 0
  }

  ghost function Power10(n: nat): nat { if n == 0 then 1 else 10 * Power10(n - 1) }

  /** The value of a numeral, its first digit counting most. */
  ghost function DecimalValue(s: string): nat {
    if s == [] then 0 else DigitValue(s[0]) * Power10(|s| - 1) + DecimalValue(s[1..])
  }

  /** s is a run of digits that stands for n. */
  ghost predicate Decimal(s: string, n: nat) {
    s != [] && (forall c :: c in s ==> c in "0123456789") && DecimalValue(s) == n
  }

  /** The slot reads o+d<base>/<sub>. */
  ghost predicate IsSlot(slot: string, base: nat, sub: nat) {
    exists a, b :: Decimal(a, base) && Decimal(b, sub) && slot == "o+d" + a + "/" + b
  }

  lemma {:induction false} DecimalValueLast(s: string, c: char)
    ensures DecimalValue(s + [c]) == 10 * DecimalValue(s) + DigitValue(c)
    decreases |s|
  {
    hide DigitValue;
    if s == [] {
      assert ([] + [c])[1..] == [] && ([] + [c])[0] == c;
      assert DecimalValue([] + [c]) == DigitValue(c) * Power10(0) + DecimalValue([]);
    } else {
      assert (s + [c])[1..] == s[1..] + [c] && (s + [c])[0] == s[0];
      DecimalValueLast(s[1..], c);
      assert Power10(|s|) == 10 * Power10(|s| - 1);
      TimesTen(DigitValue(s[0]), Power10(|s| - 1));
    }
  }

  lemma TimesTen(d: nat, p: nat)
    ensures d * (10 * p) == 10 * (d * p)
  {
  }

  lemma DigitIff(c: char)
    ensures IsDigit(c) <==> c in "0123456789"
    ensures IsDigit(c) ==> DigitValue(c) == c as int - '0' as int
  {
  }

  lemma {:induction false} ToNumberIs(s: string)
    requires forall i :: 0 <= i < |s| ==> IsDigit(s[i])
    ensures ToNumber(s) == DecimalValue(s)
    decreases |s|
  {
    if s != [] {
      var init, last := s[..|s| - 1], s[|s| - 1];
      ToNumberIs(init);
      DigitIff(last);
      DecimalValueLast(init, last);
      assert init + [last] == s;
      hide DigitValue, DecimalValue;
    }
  }

  lemma DecimalIff(s: string, n: nat)
    ensures Decimal(s, n) <==> AllDigits(s) && ToNumber(s) == n
  {
    forall i | 0 <= i < |s| ensures IsDigit(s[i]) <==> s[i] in "0123456789" { DigitIff(s[i]); }
    if AllDigits(s) { ToNumberIs(s); }
    assert (forall c :: c in s ==> c in "0123456789") ==> forall i :: 0 <= i < |s| ==> s[i] in s;
    hide IsDigit, DecimalValue, ToNumber;
  }

  /** Exactly the slots of the pattern are recognised, with the numbers they read. */
  lemma ExtractIff(ref: string)
    ensures forall base: nat, sub: nat :: ExtractDurableRefParts(ref) == Some((base, sub)) <==> IsSlot(ref, base, sub)
    ensures ExtractDurableRefParts(ref).Some? <==> exists base: nat, sub: nat :: IsSlot(ref, base, sub)
  {
    if ExtractDurableRefParts(ref).Some? {
      var a, b := ExtractOnlyPattern(ref);
      hide ExtractDurableRefParts, Decimal, AllDigits, ToNumber;
      var parts := ExtractDurableRefParts(ref).value;
      DecimalIff(a, parts.0);
      DecimalIff(b, parts.1);
      assert IsSlot(ref, parts.0, parts.1);
      assert ExtractDurableRefParts(ref) == Some((parts.0, parts.1));
    }
    forall base: nat, sub: nat | IsSlot(ref, base, sub) ensures ExtractDurableRefParts(ref) == Some((base, sub)) {
      var a, b :| Decimal(a, base) && Decimal(b, sub) && ref == "o+d" + a + "/" + b;
      DecimalIff(a, base);
      DecimalIff(b, sub);
      ExtractMatchesPattern(ref, a, b);
    }
  }

  datatype Ref = NoRef | CollectionRef(id: nat) | KindHandle(kind: nat) | ObjectRef(kind: nat)

  function Classify(slot: string): Ref {
    match ExtractDurableRefParts(slot)
    case None => NoRef
    case Some((baseRef, subRef)) =>
      if baseRef == BIGMAP_BASEREF || baseRef == BIGSET_BASEREF then CollectionRef(subRef)
      else if baseRef == KIND_HANDLE_BASEREF then KindHandle(subRef)
      else ObjectRef(baseRef)
  }

  /** Which references collections, kind handles and objects are recognised by. */
  lemma ClassifyIff(slot: string)
    ensures forall id: nat :: Classify(slot) == CollectionRef(id) <==> IsSlot(slot, 6, id) || IsSlot(slot, 8, id)
    ensures forall kind: nat :: Classify(slot) == KindHandle(kind) <==> IsSlot(slot, 1, kind)
    ensures forall kind: nat :: Classify(slot) == ObjectRef(kind) <==> kind !in {1, 6, 8} && exists sub: nat :: IsSlot(slot, kind, sub)
    ensures Classify(slot) == NoRef <==> forall base: nat, sub: nat :: !IsSlot(slot, base, sub)
  {
    ExtractIff(slot);
    hide IsSlot, ExtractDurableRefParts;
    var parts := ExtractDurableRefParts(slot);
    if parts.Some? { assert IsSlot(slot, parts.value.0, parts.value.1); }
  }

  /** s.split(c)[1] */
  function SplitSecond(s: string, c: char): Option<string> {
    var first := IndexOf(s, c);
    if first == |s| then None
    else
      var rest := s[first + 1..];
      Some(rest[..IndexOf(rest, c)])
  }

  predicate HasRefKey(row: Row) { row.key != [] && row.key[0] == 'r' }

  /** The slots a row is scanned for; a ref key without a colon makes the scan throw. */
  function RowSlots(row: Row): Option<seq<string>> {
    if HasRefKey(row) then
      var rkey := SplitSecond(row.key, ':');
      if rkey.None? then None else Some([rkey.value] + row.slots)
    else Some(row.slots)
  }

  // -------------------------------------------------------------- the graph

  datatype Node = Collection(id: nat) | Object(slot: string)

  /** Scanning this node throws: an object without a record, or a collection with a malformed key. */
  ghost predicate Broken(db: Db, n: Node) {
    match n
    case Collection(id) => id in db.collections && exists i :: 0 <= i < |db.collections[id]| && RowBroken(db.collections[id][i])
    case Object(slot) => slot !in db.objects
  }

  ghost predicate HasSlot(db: Db, n: Node, slot: string) {
    match n
    case Collection(id) =>
      id in db.collections && exists i :: 0 <= i < |db.collections[id]| && RowHasSlot(db.collections[id][i], slot)
    case Object(o) =>
      o in db.objects && exists i :: 0 <= i < |db.objects[o]| && slot in db.objects[o][i]
  }

  /** The slots of its value, and for a key that starts with 'r' the text after its first colon, up to the next one. */
  ghost predicate RowHasSlot(row: Row, slot: string) {
    slot in row.slots || (row.key != [] && row.key[0] == 'r' && exists i, j :: Between(row.key, i, j) && slot == row.key[i + 1..j])
  }

  /** A key that starts with 'r' but has no colon. */
  ghost predicate RowBroken(row: Row) {
    row.key != [] && row.key[0] == 'r' && ':' !in row.key
  }

  /** i is the first colon of the key, and j the next one or the key's end. */
  ghost predicate Between(key: string, i: int, j: int) {
    && 0 <= i < j <= |key| && key[i] == ':' && (forall k :: 0 <= k < i ==> key[k] != ':')
    && (j == |key| || key[j] == ':') && (forall k :: i < k < j ==> key[k] != ':')
  }

  lemma SplitIs(key: string)
    ensures SplitSecond(key, ':').None? <==> ':' !in key
    ensures forall part :: SplitSecond(key, ':') == Some(part) <==> exists i, j :: Between(key, i, j) && part == key[i + 1..j]
  {
    var first := IndexOf(key, ':');
    if first < |key| {
      var rest := key[first + 1..];
      var last := first + 1 + IndexOf(rest, ':');
      assert key[first + 1..last] == rest[..IndexOf(rest, ':')];
      assert last < |key| ==> key[last] == rest[last - first - 1];
      assert Between(key, first, last);
      assert SplitSecond(key, ':') == Some(key[first + 1..last]);
      forall i, j | Between(key, i, j) ensures i == first && j == last {
        OnlyBetween(key, i, j, first, last);
      }
    } else {
      assert ':' !in key;
    }
  }

  lemma OnlyBetween(key: string, i: int, j: int, i': int, j': int)
    requires Between(key, i, j) && Between(key, i', j')
    ensures i == i' && j == j'
  {
  }

  /** A row is scanned for exactly its slots, unless it is broken. */
  lemma RowSlotsAre(row: Row)
    ensures RowSlots(row).None? <==> RowBroken(row)
    ensures RowSlots(row).Some? ==> forall slot :: slot in RowSlots(row).value <==> RowHasSlot(row, slot)
  {
    SplitIs(row.key);
    hide SplitSecond;
    if HasRefKey(row) && SplitSecond(row.key, ':').Some? {
      var part := SplitSecond(row.key, ':').value;
      assert SplitSecond(row.key, ':') == Some(part);
      var i, j :| Between(row.key, i, j) && part == row.key[i + 1..j];
      forall i', j' | Between(row.key, i', j') ensures i' == i && j' == j { OnlyBetween(row.key, i', j', i, j); }
    }
  }

  ghost predicate PointsTo(slot: string, n: Node) {
    match n
    case Collection(id) => Classify(slot) == CollectionRef(id)
    case Object(o) => slot == o && Classify(slot).ObjectRef?
  }

  ghost predicate Edge(db: Db, n: Node, m: Node) {
    exists slot :: HasSlot(db, n, slot) && PointsTo(slot, m)
  }

  const ROOT: Node := Collection(1)

  ghost predicate IsPath(db: Db, path: seq<Node>) {
    && path != [] && path[0] == ROOT
    && forall i :: 0 <= i < |path| - 1 ==> Edge(db, path[i], path[i + 1])
  }

  ghost predicate Reachable(db: Db, n: Node) {
    exists path :: IsPath(db, path) && path[|path| - 1] == n
  }

  ghost predicate ReachableHandle(db: Db, kind: nat) {
    exists n, slot :: Reachable(db, n) && HasSlot(db, n, slot) && Classify(slot) == KindHandle(kind)
  }

  lemma RootReachable(db: Db)
    ensures Reachable(db, ROOT)
  {
    assert IsPath(db, [ROOT]);
  }

  lemma ReachableStep(db: Db, n: Node, slot: string, m: Node)
    requires Reachable(db, n) && HasSlot(db, n, slot) && PointsTo(slot, m)
    ensures Reachable(db, m)
  {
    var path :| IsPath(db, path) && path[|path| - 1] == n;
    var longer := path + [m];
    assert Edge(db, n, m);
    assert IsPath(db, longer) && longer[|longer| - 1] == m;
  }

  /** A set of nodes that holds the root and is closed under edges holds every reachable node. */
  lemma {:induction false} ClosedHoldsReachable(db: Db, nodes: set<Node>, path: seq<Node>)
    requires ROOT in nodes && IsPath(db, path)
    requires forall n, m :: n in nodes && Edge(db, n, m) ==> m in nodes
    ensures path[|path| - 1] in nodes
    decreases |path|
  {
    if |path| > 1 {
      var shorter := path[..|path| - 1];
      ClosedHoldsReachable(db, nodes, shorter);
      assert Edge(db, path[|path| - 2], path[|path| - 1]);
    }
  }

  // ------------------------------------------------------------ finiteness

  /** Every slot the store can hand out. */
  ghost function RowsSlots(rows: seq<Row>): set<string> {
    (set i, s | 0 <= i < |rows| && s in rows[i].slots :: s)
    + (set i | 0 <= i < |rows| && SplitSecond(rows[i].key, ':').Some? :: SplitSecond(rows[i].key, ':').value)
  }

  ghost function AllSlots(db: Db): set<string> {
    (set id, s | id in db.collections && s in RowsSlots(db.collections[id]) :: s)
    + (set o, i, s | o in db.objects && 0 <= i < |db.objects[o]| && s in db.objects[o][i] :: s)
  }

  ghost function NodeOf(slot: string): Node {
    match Classify(slot)
    case CollectionRef(id) => Collection(id)
    case _ => Object(slot)
  }

  ghost function Universe(db: Db): set<Node> {
    {ROOT} + set s | s in AllSlots(db) :: NodeOf(s)
  }

  lemma RowInSlots(rows: seq<Row>, i: nat, slot: string)
    requires i < |rows| && RowHasSlot(rows[i], slot)
    ensures slot in RowsSlots(rows)
  {
    SplitIs(rows[i].key);
    hide SplitSecond;
    if slot !in rows[i].slots { assert SplitSecond(rows[i].key, ':') == Some(slot); }
  }

  lemma SlotInUniverse(db: Db, n: Node, slot: string)
    requires HasSlot(db, n, slot)
    ensures NodeOf(slot) in Universe(db)
  {
    match n
    case Collection(id) =>
      var i :| 0 <= i < |db.collections[id]| && RowHasSlot(db.collections[id][i], slot);
      RowInSlots(db.collections[id], i, slot);
      assert slot in AllSlots(db);
    case Object(o) =>
      var i :| 0 <= i < |db.objects[o]| && slot in db.objects[o][i];
      assert slot in AllSlots(db);
  }

  // ------------------------------------------------------ what a check knows

  /** The sets a check keeps, and the nodes it has scanned so far. */
  datatype State = State(
    knownCollections: set<nat>, pendingCollections: set<nat>,
    knownObjects: set<string>, pendingObjects: set<string>,
    knownKinds: set<nat>, usedKinds: set<nat>,
    scanned: set<Node>)

  ghost predicate Known(s: State, n: Node) {
    match n case Collection(id) => id in s.knownCollections case Object(o) => o in s.knownObjects
  }

  ghost predicate Pending(s: State, n: Node) {
    match n case Collection(id) => id in s.pendingCollections case Object(o) => o in s.pendingObjects
  }

  /** What scanSlots must have done about one slot. */
  ghost predicate Handled(s: State, slot: string) {
    match Classify(slot)
    case NoRef => true
    case CollectionRef(id) => id in s.knownCollections || id in s.pendingCollections
    case KindHandle(kind) => kind in s.knownKinds
    case ObjectRef(kind) => kind in s.usedKinds && (slot in s.knownObjects || slot in s.pendingObjects)
  }

  ghost predicate NodesJustified(db: Db, s: State) {
    && (forall n :: Known(s, n) || Pending(s, n) ==> Reachable(db, n) && n in Universe(db))
    && (forall n :: Known(s, n) ==> !Pending(s, n))
    && (Known(s, ROOT) || Pending(s, ROOT))
  }

  ghost predicate UsedBy(s: State, kind: nat, o: string) {
    (o in s.knownObjects || o in s.pendingObjects) && Classify(o) == ObjectRef(kind)
  }

  ghost predicate KindsJustified(db: Db, s: State) {
    && (forall o :: o in s.knownObjects || o in s.pendingObjects ==> Classify(o).ObjectRef? && UsedKindOf(o) in s.usedKinds)
    && (forall kind :: kind in s.knownKinds ==> ReachableHandle(db, kind))
    && (forall kind :: kind in s.usedKinds ==> exists o :: UsedBy(s, kind, o))
  }

  ghost function UsedKindOf(o: string): nat {
    match Classify(o) case ObjectRef(kind) => kind case _ => 0
  }

  /** Nothing is recorded without reason. */
  ghost predicate Justified(db: Db, s: State) {
    NodesJustified(db, s) && KindsJustified(db, s)
  }

  /** Scanned nodes did not throw, and everything they point to is recorded. */
  ghost predicate Complete(db: Db, s: State) {
    && (forall n :: n in s.scanned ==> Known(s, n) && !Broken(db, n))
    && (forall n, slot :: n in s.scanned && HasSlot(db, n, slot) ==> Handled(s, slot))
  }

  /** Scanning only adds to the pending sets and the kinds. */
  ghost predicate Grew(s: State, t: State) {
    && s.knownCollections == t.knownCollections && s.knownObjects == t.knownObjects && s.scanned == t.scanned
    && s.pendingCollections <= t.pendingCollections && s.pendingObjects <= t.pendingObjects
    && s.knownKinds <= t.knownKinds && s.usedKinds <= t.usedKinds
  }

  lemma GrewKeepsHandled(s: State, t: State)
    requires Grew(s, t)
    ensures forall slot :: Handled(s, slot) ==> Handled(t, slot)
  {
  }

  /** The body of the scanSlots loop. */
  function NoteSlot(s: State, slot: string): State {
    match Classify(slot)
    case NoRef => s
    case CollectionRef(id) =>
      if id in s.knownCollections then s else s.(pendingCollections := s.pendingCollections + {id})
    case KindHandle(kind) => s.(knownKinds := s.knownKinds + {kind})
    case ObjectRef(kind) =>
      var t := s.(usedKinds := s.usedKinds + {kind});
      if slot in s.knownObjects then t else t.(pendingObjects := s.pendingObjects + {slot})
  }

  lemma NoteSlotEffect(s: State, slot: string, m: Node)
    ensures var t := NoteSlot(s, slot);
            && (Known(t, m) <==> Known(s, m))
            && (Pending(s, m) ==> Pending(t, m))
            && (Pending(t, m) && !Pending(s, m) ==> PointsTo(slot, m) && m == NodeOf(slot) && !Known(s, m))
  {
  }

  lemma NoteSlotNodes(db: Db, s: State, n: Node, slot: string)
    requires NodesJustified(db, s) && Reachable(db, n) && HasSlot(db, n, slot)
    ensures NodesJustified(db, NoteSlot(s, slot))
  {
    SlotInUniverse(db, n, slot);
    hide Known, Pending, NoteSlot, Reachable, HasSlot, Universe, Classify, PointsTo, NodeOf;
    var t := NoteSlot(s, slot);
    NoteSlotEffect(s, slot, ROOT);
    forall m | Known(t, m) || Pending(t, m) ensures Reachable(db, m) && m in Universe(db) && (Known(t, m) ==> !Pending(t, m)) {
      NoteSlotEffect(s, slot, m);
      if Pending(t, m) && !Pending(s, m) { ReachableStep(db, n, slot, m); }
    }
  }

  lemma NoteSlotKinds(db: Db, s: State, n: Node, slot: string)
    requires KindsJustified(db, s) && Reachable(db, n) && HasSlot(db, n, slot)
    ensures KindsJustified(db, NoteSlot(s, slot))
  {
    hide Reachable, HasSlot, Universe, Classify;
    var t := NoteSlot(s, slot);
    forall kind | kind in t.usedKinds ensures exists o :: UsedBy(t, kind, o) {
      if kind in s.usedKinds {
        var o :| UsedBy(s, kind, o);
        assert UsedBy(t, kind, o);
      } else {
        assert UsedBy(t, kind, slot);
      }
    }
  }

  lemma NoteSlotGrows(s: State, slot: string)
    ensures Grew(s, NoteSlot(s, slot)) && Handled(NoteSlot(s, slot), slot)
  {
  }

  /** When nothing is pending, what is known is exactly what is reachable. */
  lemma FinishedNodes(db: Db, s: State)
    requires Justified(db, s) && Complete(db, s)
    requires s.pendingCollections == {} && s.pendingObjects == {}
    requires forall n :: Known(s, n) ==> n in s.scanned
    ensures forall n :: Known(s, n) <==> Reachable(db, n)
    ensures forall n :: Reachable(db, n) ==> !Broken(db, n)
  {
    hide Classify, Universe, HasSlot, Broken, KindsJustified, Reachable;
    forall n, m | n in s.scanned && Edge(db, n, m) ensures m in s.scanned {
      var slot :| HasSlot(db, n, slot) && PointsTo(slot, m);
      assert Handled(s, slot);
      assert Known(s, m);
    }
    forall n | Reachable(db, n) ensures n in s.scanned {
      ReachableHasPath(db, n);
      var path :| IsPath(db, path) && path[|path| - 1] == n;
      ClosedHoldsReachable(db, s.scanned, path);
    }
  }

  lemma ReachableHasPath(db: Db, n: Node)
    requires Reachable(db, n)
    ensures exists path :: IsPath(db, path) && path[|path| - 1] == n
  {
  }

  ghost predicate UsedKind(db: Db, kind: nat) {
    exists o :: Reachable(db, Object(o)) && Classify(o) == ObjectRef(kind)
  }

  lemma FinishedKinds(db: Db, s: State)
    requires Justified(db, s) && Complete(db, s)
    requires s.pendingCollections == {} && s.pendingObjects == {}
    requires forall n :: Known(s, n) <==> Reachable(db, n)
    requires forall n :: Known(s, n) ==> n in s.scanned
    ensures forall kind :: kind in s.knownKinds <==> ReachableHandle(db, kind)
    ensures forall kind :: kind in s.usedKinds <==> UsedKind(db, kind)
  {
  }

  datatype Outcome = Checked | UnknownKinds(missing: set<nat>) | Threw

  // ------------------------------------------------------- the check's loops

  class Checker {
    const db: Db
    var pendingCollections: set<nat>
    var knownCollections: set<nat>
    var pendingObjects: set<string>
    var knownObjects: set<string>
    var knownKinds: set<nat>
    var usedKinds: set<nat>
    ghost var scanned: set<Node>

    ghost function Abs(): State
      reads this
    {
      State(knownCollections, pendingCollections, knownObjects, pendingObjects, knownKinds, usedKinds, scanned)
    }

    constructor (db: Db)
      ensures this.db == db && Abs() == State({}, {1}, {}, {}, {}, {}, {})
    {
      this.db := db;
      pendingCollections, knownCollections, pendingObjects, knownObjects := {1}, {}, {}, {};
      knownKinds, usedKinds, scanned := {}, {}, {};
    }

    method ScanSlots(slots: seq<string>, ghost n: Node)
      requires Justified(db, Abs()) && Reachable(db, n)
      requires forall i :: 0 <= i < |slots| ==> HasSlot(db, n, slots[i])
      modifies this`pendingCollections, this`pendingObjects, this`knownKinds, this`usedKinds
      ensures Justified(db, Abs()) && Grew(old(Abs()), Abs())
      ensures forall i :: 0 <= i < |slots| ==> Handled(Abs(), slots[i])
    {
      hide Reachable, HasSlot, Classify, NodesJustified, KindsJustified, Handled;
      for k := 0 to |slots|
        invariant Justified(db, Abs()) && Grew(old(Abs()), Abs())
        invariant forall i :: 0 <= i < k ==> Handled(Abs(), slots[i])
      {
        ghost var before := Abs();
        var slot := slots[k];
        NoteSlotNodes(db, before, n, slot);
        NoteSlotKinds(db, before, n, slot);
        NoteSlotGrows(before, slot);
        match Classify(slot) {
          case NoRef =>
          case CollectionRef(id) =>
            if id !in knownCollections { pendingCollections := pendingCollections + {id}; }
          case KindHandle(kind) =>
            knownKinds := knownKinds + {kind};
          case ObjectRef(kind) =>
            usedKinds := usedKinds + {kind};
            if slot !in knownObjects { pendingObjects := pendingObjects + {slot}; }
        }
        assert Abs() == NoteSlot(before, slot);
        GrewKeepsHandled(before, Abs());
      }
    }

    /** Whether the scan threw, on a ref key without a colon. */
    method ScanCollection(id: nat) returns (threw: bool)
      requires Justified(db, Abs()) && Reachable(db, Collection(id))
      modifies this`pendingCollections, this`pendingObjects, this`knownKinds, this`usedKinds
      ensures Justified(db, Abs()) && Grew(old(Abs()), Abs())
      ensures threw <==> Broken(db, Collection(id))
      ensures !threw ==> forall slot :: HasSlot(db, Collection(id), slot) ==> Handled(Abs(), slot)
    {
      hide Reachable, Classify, NodesJustified, KindsJustified, Handled, RowSlots, RowBroken, RowHasSlot;
      if id !in db.collections { return false; }
      var kvPairs := db.collections[id];
      for k := 0 to |kvPairs|
        invariant Justified(db, Abs()) && Grew(old(Abs()), Abs())
        invariant forall i :: 0 <= i < k ==> !RowBroken(kvPairs[i])
        invariant forall i, slot :: 0 <= i < k && RowHasSlot(kvPairs[i], slot) ==> Handled(Abs(), slot)
      {
        var row := kvPairs[k];
        var rowSlots := RowSlots(row);
        RowSlotsAre(row);
        if rowSlots.None? { return true; }
        forall i | 0 <= i < |rowSlots.value| ensures HasSlot(db, Collection(id), rowSlots.value[i]) {
          assert RowHasSlot(kvPairs[k], rowSlots.value[i]);
        }
        ghost var before := Abs();
        ScanSlots(rowSlots.value, Collection(id));
        GrewKeepsHandled(before, Abs());
      }
      return false;
    }

    /** Whether the scan threw, on an object without a record. */
    method ScanObject(objectID: string) returns (threw: bool)
      requires Justified(db, Abs()) && Reachable(db, Object(objectID))
      modifies this`pendingCollections, this`pendingObjects, this`knownKinds, this`usedKinds
      ensures Justified(db, Abs()) && Grew(old(Abs()), Abs())
      ensures threw <==> Broken(db, Object(objectID))
      ensures !threw ==> forall slot :: HasSlot(db, Object(objectID), slot) ==> Handled(Abs(), slot)
    {
      hide Reachable, Classify, NodesJustified, KindsJustified, Handled;
      if objectID !in db.objects { return true; }
      var props := db.objects[objectID];
      for k := 0 to |props|
        invariant Justified(db, Abs()) && Grew(old(Abs()), Abs())
        invariant forall i, slot :: 0 <= i < k && slot in props[i] ==> Handled(Abs(), slot)
      {
        ghost var before := Abs();
        ScanSlots(props[k], Object(objectID));
        GrewKeepsHandled(before, Abs());
      }
      return false;
    }

    /** scanCollection on a known collection, with what it settles. */
    method VisitCollection(coll: nat) returns (threw: bool)
      requires Justified(db, Abs()) && Complete(db, Abs()) && coll in knownCollections
      modifies this`pendingCollections, this`pendingObjects, this`knownKinds, this`usedKinds, this`scanned
      ensures threw ==> exists n :: Reachable(db, n) && Broken(db, n)
      ensures !threw ==> Justified(db, Abs()) && Complete(db, Abs()) && scanned == old(scanned) + {Collection(coll)}
    {
      hide Reachable, Classify, NodesJustified, KindsJustified, Handled, Broken, HasSlot;
      ghost var before := Abs();
      KnownIsReachable(db, before, Collection(coll));
      threw := ScanCollection(coll);
      if !threw {
        GrewKeepsComplete(db, before, Abs(), Collection(coll));
        scanned := scanned + {Collection(coll)};
      }
    }

    /** scanObject on a known object, with what it settles. */
    method VisitObject(obj: string) returns (threw: bool)
      requires Justified(db, Abs()) && Complete(db, Abs()) && obj in knownObjects
      modifies this`pendingCollections, this`pendingObjects, this`knownKinds, this`usedKinds, this`scanned
      ensures threw ==> exists n :: Reachable(db, n) && Broken(db, n)
      ensures !threw ==> Justified(db, Abs()) && Complete(db, Abs()) && scanned == old(scanned) + {Object(obj)}
    {
      hide Reachable, Classify, NodesJustified, KindsJustified, Handled, Broken, HasSlot;
      ghost var before := Abs();
      KnownIsReachable(db, before, Object(obj));
      threw := ScanObject(obj);
      if !threw {
        GrewKeepsComplete(db, before, Abs(), Object(obj));
        scanned := scanned + {Object(obj)};
      }
    }

    /** Before each round: every known node is scanned. */
    ghost predicate BetweenRounds()
      reads this
    {
      && Justified(db, Abs()) && Complete(db, Abs())
      && (forall id :: id in knownCollections ==> Collection(id) in scanned)
      && (forall o :: o in knownObjects ==> Object(o) in scanned)
    }

    /** for (const coll of workingCollections) scanCollection(coll) */
    method VisitCollections(working: set<nat>) returns (threw: bool)
      requires Justified(db, Abs()) && Complete(db, Abs()) && working <= knownCollections
      requires forall id :: id in knownCollections ==> Collection(id) in scanned || id in working
      requires forall o :: o in knownObjects ==> Object(o) in scanned
      modifies this`pendingCollections, this`pendingObjects, this`knownKinds, this`usedKinds, this`scanned
      ensures threw ==> exists n :: Reachable(db, n) && Broken(db, n)
      ensures !threw ==> BetweenRounds() && old(scanned) <= scanned
      ensures !threw ==> forall id :: id in working ==> Collection(id) in scanned
      ensures working == {} ==> Abs() == old(Abs())
    {
      hide Reachable, Justified, Complete, Broken;
      var todo := working;
      while todo != {}
        invariant todo <= working
        invariant Justified(db, Abs()) && Complete(db, Abs())
        invariant forall id :: id in knownCollections ==> Collection(id) in scanned || id in todo
        invariant forall o :: o in knownObjects ==> Object(o) in scanned
        invariant old(scanned) <= scanned
        invariant forall id :: id in working && id !in todo ==> Collection(id) in scanned
        invariant working == {} ==> Abs() == old(Abs())
        decreases todo
      {
        var coll :| coll in todo;
        threw := VisitCollection(coll);
        if threw { return; }
        todo := todo - {coll};
      }
      threw := false;
    }

    /** The first half of a round: what is pending becomes known and is scanned. */
    method ScanPendingCollections() returns (threw: bool)
      requires BetweenRounds()
      modifies this
      ensures threw ==> exists n :: Reachable(db, n) && Broken(db, n)
      ensures !threw ==> BetweenRounds() && old(scanned) <= scanned
      ensures !threw && old(pendingCollections) != {} ==> old(scanned) < scanned
      ensures !threw && old(pendingCollections) == {} ==> Abs() == old(Abs())
    {
      var workingCollections := pendingCollections;
      ghost var start := Abs();
      ScannedIsNotPending(db, start);
      PromoteCollections(db, start);
      pendingCollections := {};
      knownCollections := knownCollections + workingCollections;
      hide Reachable, Justified, Complete, Broken;
      threw := VisitCollections(workingCollections);
      if !threw && workingCollections != {} {
        ghost var first :| first in workingCollections;
        assert Pending(start, Collection(first)) && Collection(first) in scanned;
      }
    }

    /** for (const obj of workingObjects) scanObject(obj) */
    method VisitObjects(working: set<string>) returns (threw: bool)
      requires Justified(db, Abs()) && Complete(db, Abs()) && working <= knownObjects
      requires forall id :: id in knownCollections ==> Collection(id) in scanned
      requires forall o :: o in knownObjects ==> Object(o) in scanned || o in working
      modifies this`pendingCollections, this`pendingObjects, this`knownKinds, this`usedKinds, this`scanned
      ensures threw ==> exists n :: Reachable(db, n) && Broken(db, n)
      ensures !threw ==> BetweenRounds() && old(scanned) <= scanned
      ensures !threw ==> forall o :: o in working ==> Object(o) in scanned
      ensures working == {} ==> Abs() == old(Abs())
    {
      hide Reachable, Justified, Complete, Broken;
      var todo := working;
      while todo != {}
        invariant todo <= working
        invariant Justified(db, Abs()) && Complete(db, Abs())
        invariant forall id :: id in knownCollections ==> Collection(id) in scanned
        invariant forall o :: o in knownObjects ==> Object(o) in scanned || o in todo
        invariant old(scanned) <= scanned
        invariant forall o :: o in working && o !in todo ==> Object(o) in scanned
        invariant working == {} ==> Abs() == old(Abs())
        decreases todo
      {
        var obj :| obj in todo;
        threw := VisitObject(obj);
        if threw { return; }
        todo := todo - {obj};
      }
      threw := false;
    }

    /** The second half of a round: what is pending becomes known and is scanned. */
    method ScanPendingObjects() returns (threw: bool)
      requires BetweenRounds()
      modifies this
      ensures threw ==> exists n :: Reachable(db, n) && Broken(db, n)
      ensures !threw ==> BetweenRounds() && old(scanned) <= scanned
      ensures !threw && old(pendingObjects) != {} ==> old(scanned) < scanned
      ensures !threw && old(pendingObjects) == {} ==> Abs() == old(Abs())
    {
      var workingObjects := pendingObjects;
      ghost var start := Abs();
      ScannedIsNotPending(db, start);
      PromoteObjects(db, start);
      pendingObjects := {};
      knownObjects := knownObjects + workingObjects;
      hide Reachable, Justified, Complete, Broken;
      threw := VisitObjects(workingObjects);
      if !threw && workingObjects != {} {
        ghost var first :| first in workingObjects;
        assert Pending(start, Object(first)) && Object(first) in scanned;
      }
    }

    /**
     * The whole check, from the state the constructor leaves. It throws exactly
     * when some reachable object has no record or some reachable collection a
     * malformed key; otherwise what it knows is what is reachable, and it
     * complains of exactly the kinds that reachable objects use without a
     * reachable handle.
     */
    method Check() returns (outcome: Outcome)
      requires Abs() == State({}, {1}, {}, {}, {}, {}, {})
      modifies this
      ensures outcome.Threw? <==> exists n :: Reachable(db, n) && Broken(db, n)
      ensures !outcome.Threw? ==> forall id :: id in knownCollections <==> Reachable(db, Collection(id))
      ensures !outcome.Threw? ==> forall o :: o in knownObjects <==> Reachable(db, Object(o))
      ensures !outcome.Threw? ==> forall kind :: kind in knownKinds <==> ReachableHandle(db, kind)
      ensures !outcome.Threw? ==> forall kind :: kind in usedKinds <==> UsedKind(db, kind)
      ensures outcome.UnknownKinds? ==> outcome.missing != {}
      ensures outcome.UnknownKinds? ==> forall kind :: kind in outcome.missing <==> UsedKind(db, kind) && !ReachableHandle(db, kind)
      ensures outcome.Checked? ==> forall kind :: UsedKind(db, kind) ==> ReachableHandle(db, kind)
    {
      StartJustified(db, Abs());
      while pendingCollections != {} || pendingObjects != {}
        invariant BetweenRounds() && scanned <= Universe(db)
        decreases Universe(db) - scanned
      {
        hide Reachable, Universe, Broken, Handled, Justified, Complete;
        var threw := ScanPendingCollections();
        if threw { return Threw; }
        threw := ScanPendingObjects();
        if threw { return Threw; }
        ScannedInUniverse(db, Abs());
      }
      assert forall n :: Known(Abs(), n) ==> n in scanned;
      FinishedNodes(db, Abs());
      FinishedKinds(db, Abs());
      hide Reachable, Universe, Broken, Justified, Complete, ReachableHandle, UsedKind;
      assert forall id :: Known(Abs(), Collection(id)) <==> id in knownCollections;
      assert forall o :: Known(Abs(), Object(o)) <==> o in knownObjects;
      var usedButNotKnownKinds := usedKinds - knownKinds;
      if usedButNotKnownKinds != {} { return UnknownKinds(usedButNotKnownKinds); }
      assert forall kind :: kind in usedKinds ==> kind !in usedButNotKnownKinds;
      return Checked;
    }
  }

  lemma StartJustified(db: Db, s: State)
    requires s == State({}, {1}, {}, {}, {}, {}, {})
    ensures Justified(db, s) && Complete(db, s)
  {
    RootReachable(db);
    hide Reachable;
  }

  lemma ScannedInUniverse(db: Db, s: State)
    requires Justified(db, s) && Complete(db, s)
    ensures s.scanned <= Universe(db)
  {
  }

  lemma ScannedIsNotPending(db: Db, s: State)
    requires Justified(db, s) && Complete(db, s)
    ensures forall n :: Pending(s, n) ==> n !in s.scanned
  {
  }

  lemma KnownIsReachable(db: Db, s: State, n: Node)
    requires Justified(db, s) && (Known(s, n) || Pending(s, n))
    ensures Reachable(db, n) && n in Universe(db)
  {
  }

  /** KindsJustified depends only on which objects are recorded, known or pending, and on the kinds. */
  lemma SameObjectsSameKinds(db: Db, s: State, t: State)
    requires KindsJustified(db, s) && s.knownKinds == t.knownKinds && s.usedKinds == t.usedKinds
    requires s.knownObjects + s.pendingObjects == t.knownObjects + t.pendingObjects
    ensures KindsJustified(db, t)
  {
    hide Reachable, Classify;
    assert forall o :: o in t.knownObjects || o in t.pendingObjects <==> o in t.knownObjects + t.pendingObjects;
    assert forall o :: o in s.knownObjects || o in s.pendingObjects <==> o in s.knownObjects + s.pendingObjects;
    forall kind | kind in t.usedKinds ensures exists o :: UsedBy(t, kind, o) {
      var o :| UsedBy(s, kind, o);
      assert UsedBy(t, kind, o);
    }
  }

  /** What a change of sets must keep for the invariants to carry over. */
  ghost predicate SameRecorded(s: State, t: State) {
    && (forall m :: Known(s, m) || Pending(s, m) <==> Known(t, m) || Pending(t, m))
    && (forall m :: Known(t, m) ==> !Pending(t, m))
    && (forall m :: Known(s, m) ==> Known(t, m))
    && (forall slot :: Handled(s, slot) ==> Handled(t, slot))
    && s.knownKinds == t.knownKinds && s.usedKinds == t.usedKinds
    && s.knownObjects + s.pendingObjects == t.knownObjects + t.pendingObjects
  }

  lemma SameRecordedNodes(db: Db, s: State, t: State)
    requires NodesJustified(db, s) && SameRecorded(s, t)
    ensures NodesJustified(db, t)
  {
  }

  lemma SameRecordedComplete(db: Db, s: State, t: State)
    requires Complete(db, s) && SameRecorded(s, t) && s.scanned == t.scanned
    ensures Complete(db, t)
  {
  }

  lemma SameRecordedKeeps(db: Db, s: State, t: State)
    requires Justified(db, s) && SameRecorded(s, t)
    ensures Justified(db, t)
    ensures Complete(db, s) && s.scanned == t.scanned ==> Complete(db, t)
  {
    assert s.knownKinds == t.knownKinds && s.usedKinds == t.usedKinds
           && s.knownObjects + s.pendingObjects == t.knownObjects + t.pendingObjects;
    hide SameRecorded, NodesJustified, KindsJustified, Complete;
    SameRecordedNodes(db, s, t);
    SameObjectsSameKinds(db, s, t);
    if Complete(db, s) && s.scanned == t.scanned { SameRecordedComplete(db, s, t); }
  }

  /** Moving what is pending to what is known records the same. */
  lemma MovedIsSame(s: State, t: State)
    requires s.knownCollections <= t.knownCollections && s.knownObjects <= t.knownObjects
    requires s.knownCollections + s.pendingCollections == t.knownCollections + t.pendingCollections
    requires s.knownObjects + s.pendingObjects == t.knownObjects + t.pendingObjects
    requires t.knownCollections !! t.pendingCollections && t.knownObjects !! t.pendingObjects
    requires s.knownKinds == t.knownKinds && s.usedKinds == t.usedKinds
    ensures SameRecorded(s, t)
  {
    hide Classify;
    assert forall id :: id in s.knownCollections || id in s.pendingCollections <==> id in s.knownCollections + s.pendingCollections;
    assert forall id :: id in t.knownCollections || id in t.pendingCollections <==> id in t.knownCollections + t.pendingCollections;
    assert forall o :: o in s.knownObjects || o in s.pendingObjects <==> o in s.knownObjects + s.pendingObjects;
    assert forall o :: o in t.knownObjects || o in t.pendingObjects <==> o in t.knownObjects + t.pendingObjects;
  }

  lemma KnownApartFromPending(db: Db, s: State)
    requires Justified(db, s)
    ensures s.knownCollections !! s.pendingCollections && s.knownObjects !! s.pendingObjects
  {
    NothingKnownIsPending(db, s);
    hide Justified;
    forall id | id in s.knownCollections ensures id !in s.pendingCollections { assert Known(s, Collection(id)); }
    forall o | o in s.knownObjects ensures o !in s.pendingObjects { assert Known(s, Object(o)); }
  }

  /** Marking pending collections as known. */
  lemma PromoteCollections(db: Db, s: State)
    requires Justified(db, s) && Complete(db, s)
    ensures var t := s.(pendingCollections := {}, knownCollections := s.knownCollections + s.pendingCollections);
            Justified(db, t) && Complete(db, t)
  {
    hide Justified, Complete, SameRecorded;
    KnownApartFromPending(db, s);
    var t := s.(pendingCollections := {}, knownCollections := s.knownCollections + s.pendingCollections);
    MovedIsSame(s, t);
    SameRecordedKeeps(db, s, t);
  }

  lemma PromoteObjects(db: Db, s: State)
    requires Justified(db, s) && Complete(db, s)
    ensures var t := s.(pendingObjects := {}, knownObjects := s.knownObjects + s.pendingObjects);
            Justified(db, t) && Complete(db, t)
  {
    hide Justified, Complete, SameRecorded;
    KnownApartFromPending(db, s);
    var t := s.(pendingObjects := {}, knownObjects := s.knownObjects + s.pendingObjects);
    MovedIsSame(s, t);
    SameRecordedKeeps(db, s, t);
  }

  /** A scan that did not throw adds its node to the scanned ones. */
  lemma GrewKeepsComplete(db: Db, s: State, t: State, n: Node)
    requires Complete(db, s) && Justified(db, t) && Grew(s, t) && Known(s, n) && !Broken(db, n)
    requires forall slot :: HasSlot(db, n, slot) ==> Handled(t, slot)
    ensures Complete(db, t.(scanned := t.scanned + {n})) && Justified(db, t.(scanned := t.scanned + {n}))
  {
    var u := t.(scanned := t.scanned + {n});
    hide Justified, Complete, SameRecorded, Known, Pending, Handled, Broken, HasSlot;
    NothingKnownIsPending(db, t);
    ScannedIsNotRead(t, u);
    SameRecordedKeeps(db, t, u);
    GrewKeepsHandled(s, t);
    SameKnown(s, u);
    CompleteWithOneMore(db, s, u, n);
  }

  lemma CompleteWithOneMore(db: Db, s: State, u: State, n: Node)
    requires Complete(db, s) && u.scanned == s.scanned + {n}
    requires Known(s, n) && !Broken(db, n)
    requires forall m :: Known(s, m) <==> Known(u, m)
    requires forall slot :: Handled(s, slot) ==> Handled(u, slot)
    requires forall slot :: HasSlot(db, n, slot) ==> Handled(u, slot)
    ensures Complete(db, u)
  {
  }

  lemma NothingKnownIsPending(db: Db, s: State)
    requires Justified(db, s)
    ensures forall m :: Known(s, m) ==> !Pending(s, m)
  {
  }

  lemma ScannedIsNotRead(s: State, t: State)
    requires t == s.(scanned := t.scanned)
    requires forall m :: Known(s, m) ==> !Pending(s, m)
    ensures SameRecorded(s, t) && forall slot :: Handled(s, slot) ==> Handled(t, slot)
  {
  }

  lemma SameKnown(s: State, t: State)
    requires s.knownCollections == t.knownCollections && s.knownObjects == t.knownObjects
    ensures forall n :: Known(s, n) <==> Known(t, n)
  {
  }
}
