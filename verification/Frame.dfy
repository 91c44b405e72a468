/** Trimming an observer frame until its serialized form fits the plaintext cap. */
module Frame {
  import opened Prelude
  import opened Json
  import opened Text
  import opened Elision
  import opened Coalescer

  const MAX_PLAINTEXT_LEN := 65_535

  // ------------------------------------------------------------ serialization

  /** Bytes of a value in compact JSON. */
  function JsonLen(v: Json): nat
    decreases v
  {
    match v
    case Null => 4
    case Bool(b) => if b then 4 else 5
    case Num(text) => |text|
    case Str(s) => 2 + EscapedLen(s)
    case Arr(items) => 2 + ItemsLen(items)
    case Obj(members) => 2 + MembersLen(members)
  }

  function ItemsLen(items: seq<Json>): nat
    decreases items
  {
    if items == [] then 0
    else JsonLen(items[0]) + (if |items| > 1 then 1 else 0) + ItemsLen(items[1..])
  }

  function MembersLen(ms: seq<Member>): nat
    decreases ms
  {
    if ms == [] then 0
    else 3 + EscapedLen(ms[0].name) + JsonLen(ms[0].value) + (if |ms| > 1 then 1 else 0) + MembersLen(ms[1..])
  }

  function OptNum(n: Option<nat>): Json {
    if n.Some? then Num(Decimal(n.value)) else Null
  }

  function OptStr(s: Option<string>): Json {
    if s.Some? then Str(s.value) else Null
  }

  /** The serialized frame; `startedAt` is left out when absent. */
  function Fields(e: ObserverEvent): seq<Member> {
    [Member("seq", Num(Decimal(e.seqNo))), Member("timestamp", Str(e.timestamp)), Member("kind", Str(e.kind)),
     Member("agentIndex", OptNum(e.agentIndex)), Member("channelId", OptStr(e.channelId)),
     Member("sessionId", OptStr(e.sessionId)), Member("turnId", OptStr(e.turnId))]
    + (if e.startedAt.Some? then [Member("startedAt", Str(e.startedAt.value))] else [])
  }

  function FrameLen(e: ObserverEvent): nat {
    JsonLen(Obj(Fields(e) + [Member("payload", e.payload)]))
  }

  /** Everything but the payload. */
  function EnvelopeLen(e: ObserverEvent): nat {
    2 + MembersLen(Fields(e)) + 1 + 3 + EscapedLen("payload")
  }

  lemma {:induction false} MembersSnoc(ms: seq<Member>, m: Member)
    requires ms != []
    ensures MembersLen(ms + [m]) == MembersLen(ms) + 1 + 3 + EscapedLen(m.name) + JsonLen(m.value)
    decreases |ms|
  {
    var more := ms + [m];
    assert more[0] == ms[0] && more[1..] == ms[1..] + [m];
    if |ms| == 1 {
      assert more[1..] == [m] && [m][1..] == [] && ms[1..] == [];
      assert MembersLen([m]) == 3 + EscapedLen(m.name) + JsonLen(m.value);
    } else {
      MembersSnoc(ms[1..], m);
    }
  }

  lemma FrameIsEnvelopePlusPayload(e: ObserverEvent)
    ensures FrameLen(e) == EnvelopeLen(e) + JsonLen(e.payload)
  {
    MembersSnoc(Fields(e), Member("payload", e.payload));
  }

  // ------------------------------------------------------------- string leaves

  /** The string values of a tree, in the order the search visits them. Keys are not values. */
  function Leaves(v: Json): seq<string>
    decreases v
  {
    match v
    case Str(s) => [s]
    case Arr(items) => ItemLeaves(items)
    case Obj(members) => MemberLeaves(members)
    case _ => []
  }

  function ItemLeaves(items: seq<Json>): seq<string>
    decreases items
  {
    if items == [] then [] else Leaves(items[0]) + ItemLeaves(items[1..])
  }

  function MemberLeaves(ms: seq<Member>): seq<string>
    decreases ms
  {
    if ms == [] then [] else Leaves(ms[0].value) + MemberLeaves(ms[1..])
  }

  /** The tree with its `i`-th string leaf replaced. */
  function SetLeaf(v: Json, i: nat, s: string): Json
    requires i < |Leaves(v)|
    decreases v
  {
    match v
    case Str(_) => Str(s)
    case Arr(items) => Arr(SetItemLeaf(items, i, s))
    case Obj(members) => Obj(SetMemberLeaf(members, i, s))
  }

  function SetItemLeaf(items: seq<Json>, i: nat, s: string): (r: seq<Json>)
    requires i < |ItemLeaves(items)|
    ensures |r| == |items|
    decreases items
  {
    var n := |Leaves(items[0])|;
    if i < n then [SetLeaf(items[0], i, s)] + items[1..]
    else [items[0]] + SetItemLeaf(items[1..], i - n, s)
  }

  function SetMemberLeaf(ms: seq<Member>, i: nat, s: string): (r: seq<Member>)
    requires i < |MemberLeaves(ms)|
    ensures |r| == |ms|
    decreases ms
  {
    var n := |Leaves(ms[0].value)|;
    if i < n then [Member(ms[0].name, SetLeaf(ms[0].value, i, s))] + ms[1..]
    else [ms[0]] + SetMemberLeaf(ms[1..], i - n, s)
  }

  /** Replacing a leaf changes that leaf and the serialized size by exactly the difference. */
  lemma {:induction false} SetLeafEffect(v: Json, i: nat, s: string)
    requires i < |Leaves(v)|
    ensures Leaves(SetLeaf(v, i, s)) == Leaves(v)[i := s]
    ensures JsonLen(SetLeaf(v, i, s)) + EscapedLen(Leaves(v)[i]) == JsonLen(v) + EscapedLen(s)
    decreases v
  {
    match v
    case Str(_) =>
    case Arr(items) => SetItemEffect(items, i, s);
    case Obj(members) => SetMemberEffect(members, i, s);
  }

  lemma {:induction false} SetItemEffect(items: seq<Json>, i: nat, s: string)
    requires i < |ItemLeaves(items)|
    ensures ItemLeaves(SetItemLeaf(items, i, s)) == ItemLeaves(items)[i := s]
    ensures ItemsLen(SetItemLeaf(items, i, s)) + EscapedLen(ItemLeaves(items)[i]) == ItemsLen(items) + EscapedLen(s)
    decreases items
  {
    var n, r := |Leaves(items[0])|, SetItemLeaf(items, i, s);
    if i < n {
      SetLeafEffect(items[0], i, s);
      assert r[0] == SetLeaf(items[0], i, s) && r[1..] == items[1..];
    } else {
      SetItemEffect(items[1..], i - n, s);
      assert r[0] == items[0] && r[1..] == SetItemLeaf(items[1..], i - n, s);
    }
  }

  lemma {:induction false} SetMemberEffect(ms: seq<Member>, i: nat, s: string)
    requires i < |MemberLeaves(ms)|
    ensures MemberLeaves(SetMemberLeaf(ms, i, s)) == MemberLeaves(ms)[i := s]
    ensures MembersLen(SetMemberLeaf(ms, i, s)) + EscapedLen(MemberLeaves(ms)[i]) == MembersLen(ms) + EscapedLen(s)
    decreases ms
  {
    var n, r := |Leaves(ms[0].value)|, SetMemberLeaf(ms, i, s);
    if i < n {
      SetLeafEffect(ms[0].value, i, s);
      assert r[0] == Member(ms[0].name, SetLeaf(ms[0].value, i, s)) && r[1..] == ms[1..];
    } else {
      SetMemberEffect(ms[1..], i - n, s);
      assert r[0] == ms[0] && r[1..] == SetMemberLeaf(ms[1..], i - n, s);
    }
  }

  // ------------------------------------------------------------------- shape

  /** The tree without its string values: structure, keys, numbers. */
  function Shape(v: Json): Json
    decreases v
  {
    match v
    case Str(_) => Str("")
    case Arr(items) => Arr(ItemShapes(items))
    case Obj(members) => Obj(MemberShapes(members))
    case _ => v
  }

  function ItemShapes(items: seq<Json>): seq<Json>
    decreases items
  {
    if items == [] then [] else [Shape(items[0])] + ItemShapes(items[1..])
  }

  function MemberShapes(ms: seq<Member>): seq<Member>
    decreases ms
  {
    if ms == [] then [] else [Member(ms[0].name, Shape(ms[0].value))] + MemberShapes(ms[1..])
  }

  lemma {:induction false} SetLeafKeepsShape(v: Json, i: nat, s: string)
    requires i < |Leaves(v)|
    ensures Shape(SetLeaf(v, i, s)) == Shape(v)
    decreases v
  {
    match v
    case Str(_) =>
    case Arr(items) => SetItemKeepsShape(items, i, s);
    case Obj(members) => SetMemberKeepsShape(members, i, s);
  }

  lemma {:induction false} SetItemKeepsShape(items: seq<Json>, i: nat, s: string)
    requires i < |ItemLeaves(items)|
    ensures ItemShapes(SetItemLeaf(items, i, s)) == ItemShapes(items)
    decreases items
  {
    var n, r := |Leaves(items[0])|, SetItemLeaf(items, i, s);
    if i < n {
      SetLeafKeepsShape(items[0], i, s);
      assert r[0] == SetLeaf(items[0], i, s) && r[1..] == items[1..];
    } else {
      SetItemKeepsShape(items[1..], i - n, s);
      assert r[0] == items[0] && r[1..] == SetItemLeaf(items[1..], i - n, s);
    }
  }

  lemma {:induction false} SetMemberKeepsShape(ms: seq<Member>, i: nat, s: string)
    requires i < |MemberLeaves(ms)|
    ensures MemberShapes(SetMemberLeaf(ms, i, s)) == MemberShapes(ms)
    decreases ms
  {
    var n, r := |Leaves(ms[0].value)|, SetMemberLeaf(ms, i, s);
    if i < n {
      SetLeafKeepsShape(ms[0].value, i, s);
      assert r[0] == Member(ms[0].name, SetLeaf(ms[0].value, i, s)) && r[1..] == ms[1..];
    } else {
      SetMemberKeepsShape(ms[1..], i - n, s);
      assert r[0] == ms[0] && r[1..] == SetMemberLeaf(ms[1..], i - n, s);
    }
  }

  // ------------------------------------------------------------------ choice

  /** The sizes of the leaves, for those that can shrink. */
  function ShrinkableLens(can: string -> bool, ls: seq<string>): seq<Option<nat>> {
    seq(|ls|, i requires 0 <= i < |ls| => if can(ls[i]) then Some(ByteLen(ls[i])) else None)
  }

  /** No leaf can shrink. */
  predicate Exhausted(lens: seq<Option<nat>>) {
    forall i | 0 <= i < |lens| :: lens[i].None?
  }

  /** Position `k` holds a longest leaf among those that can shrink. */
  predicate IsLargest(lens: seq<Option<nat>>, k: nat) {
    && k < |lens| && lens[k].Some?
    && forall i | 0 <= i < |lens| && lens[i].Some? :: lens[i].value <= lens[k].value
  }

  function MaxShrinkableLen(lens: seq<Option<nat>>): (n: Option<nat>)
    ensures n.None? <==> Exhausted(lens)
    ensures n.Some? ==> n in lens && forall i | 0 <= i < |lens| && lens[i].Some? :: lens[i].value <= n.value
  {
    if lens == [] then None
    else
      var front, last := lens[..|lens| - 1], lens[|lens| - 1];
      var best := MaxShrinkableLen(front);
      assert lens == front + [last];
      if last.Some? && (best.None? || best.value < last.value) then last else best
  }

  /** The first leaf of that size that can shrink. */
  function FindLeafWithLen(lens: seq<Option<nat>>, target: Option<nat>): (k: nat)
    requires target in lens
    ensures k < |lens| && lens[k] == target
    ensures forall i | 0 <= i < k :: lens[i] != target
  {
    if lens[0] == target then 0 else 1 + FindLeafWithLen(lens[1..], target)
  }

  function LargestShrinkableLeaf(lens: seq<Option<nat>>): (r: Option<nat>)
    ensures r.None? <==> Exhausted(lens)
    ensures r.Some? ==> IsLargest(lens, r.value)
  {
    var best := MaxShrinkableLen(lens);
    if best.None? then None else Some(FindLeafWithLen(lens, best))
  }

  // --------------------------------------------------------------- the loop

  // The loop is stated for any way of shortening a leaf, and used with `Elide` and `Shrinks`.

  function Times(elide: string -> string, s: string, n: nat): string {
    if n == 0 then s else elide(Times(elide, s, n - 1))
  }

  /** The first `n` shortenings of a leaf each apply to something that can shrink. */
  predicate Able(elide: string -> string, can: string -> bool, s: string, n: nat) {
    n > 0 ==> Able(elide, can, s, n - 1) && can(Times(elide, s, n - 1))
  }

  /** What can shrink, does. */
  ghost predicate Shortening(elide: string -> string, can: string -> bool) {
    forall s | can(s) :: EscapedLen(elide(s)) < EscapedLen(s)
  }

  /** Leaf `i` of `now` is leaf `i` of `was`, shortened `counts[i]` times. */
  ghost predicate Trimmed(elide: string -> string, can: string -> bool, was: seq<string>, now: seq<string>, counts: seq<nat>) {
    && |was| == |now| == |counts|
    && forall i | 0 <= i < |was| :: now[i] == Times(elide, was[i], counts[i]) && Able(elide, can, was[i], counts[i])
  }

  lemma TrimmedStart(elide: string -> string, can: string -> bool, ls: seq<string>)
    ensures Trimmed(elide, can, ls, ls, seq(|ls|, _ => 0))
  {
  }

  lemma TrimmedNext(elide: string -> string, can: string -> bool, was: seq<string>, now: seq<string>, counts: seq<nat>, i: nat)
    requires Trimmed(elide, can, was, now, counts) && i < |now| && can(now[i])
    ensures Trimmed(elide, can, was, now[i := elide(now[i])], counts[i := counts[i] + 1])
  {
    var now', counts' := now[i := elide(now[i])], counts[i := counts[i] + 1];
    forall k | 0 <= k < |was|
      ensures now'[k] == Times(elide, was[k], counts'[k]) && Able(elide, can, was[k], counts'[k])
    {
      assert k != i ==> now'[k] == now[k] && counts'[k] == counts[k];
    }
  }

  lemma {:induction false} AbleThrice(elide: string -> string, can: string -> bool, s: string, n: nat)
    requires Able(elide, can, s, n) && n >= 3
    ensures can(s) && can(elide(s)) && can(elide(elide(s)))
  {
    if n > 3 {
      AbleThrice(elide, can, s, n - 1);
    } else {
      assert Times(elide, s, 0) == s && Times(elide, s, 1) == elide(s) && Times(elide, s, 2) == elide(elide(s));
      assert Able(elide, can, s, 2) && Able(elide, can, s, 1);
    }
  }

  lemma ElideIsShortening()
    ensures Shortening(Elide, Shrinks)
  {
    forall s | Shrinks(s) ensures EscapedLen(Elide(s)) < EscapedLen(s) { ElideShortens(s); }
  }

  /** A leaf of a trimmed payload was elided at most twice. */
  lemma NoLeafMoreThanTwice(was: seq<string>, now: seq<string>, counts: seq<nat>, i: nat)
    requires Trimmed(Elide, Shrinks, was, now, counts) && i < |was| && ByteLen(was[i]) < WORD
    ensures counts[i] <= 2
  {
    if counts[i] >= 3 {
      AbleThrice(Elide, Shrinks, was[i], counts[i]);
      AtMostTwice(was[i]);
    }
  }

  function Total(counts: seq<nat>): nat {
    if counts == [] then 0 else Total(counts[..|counts| - 1]) + counts[|counts| - 1]
  }

  lemma {:induction false} TotalUpdate(counts: seq<nat>, i: nat)
    requires i < |counts|
    ensures Total(counts[i := counts[i] + 1]) == Total(counts) + 1
  {
    var n := |counts| - 1;
    if i == n {
      assert counts[i := counts[i] + 1][..n] == counts[..n];
    } else {
      TotalUpdate(counts[..n], i);
      assert counts[i := counts[i] + 1][..n] == counts[..n][i := counts[i] + 1];
    }
  }

  lemma {:induction false} TotalZero(n: nat)
    ensures Total(seq(n, _ => 0)) == 0
  {
    if n > 0 {
      TotalZero(n - 1);
      assert seq(n, _ => 0)[..n - 1] == seq(n - 1, _ => 0);
    }
  }

  ghost predicate InMemory(ls: seq<string>) {
    forall i | 0 <= i < |ls| :: ByteLen(ls[i]) < WORD
  }

  /** The loop makes at most twice as many passes as there are leaves. */
  lemma {:induction false} PassesAtMostTwiceLeaves(was: seq<string>, now: seq<string>, counts: seq<nat>)
    requires Trimmed(Elide, Shrinks, was, now, counts) && InMemory(was)
    ensures Total(counts) <= 2 * |was|
  {
    if was != [] {
      var n := |was| - 1;
      NoLeafMoreThanTwice(was, now, counts, n);
      PassesAtMostTwiceLeaves(was[..n], now[..n], counts[..n]);
    }
  }

  // -------------------------------------------------------------- the floor

  /** What a leaf comes down to when it is shortened for as long as it can be. */
  ghost function Floor(elide: string -> string, can: string -> bool, s: string): string
    requires Shortening(elide, can)
    decreases EscapedLen(s)
  {
    if can(s) then Floor(elide, can, elide(s)) else s
  }

  function LeafSum(ls: seq<string>): nat {
    if ls == [] then 0 else LeafSum(ls[..|ls| - 1]) + EscapedLen(ls[|ls| - 1])
  }

  ghost function FloorSum(elide: string -> string, can: string -> bool, ls: seq<string>): nat
    requires Shortening(elide, can)
  {
    if ls == [] then 0
    else FloorSum(elide, can, ls[..|ls| - 1]) + EscapedLen(Floor(elide, can, ls[|ls| - 1]))
  }

  lemma {:induction false} FloorAtMost(elide: string -> string, can: string -> bool, s: string)
    requires Shortening(elide, can)
    ensures EscapedLen(Floor(elide, can, s)) <= EscapedLen(s)
    decreases EscapedLen(s)
  {
    if can(s) { FloorAtMost(elide, can, elide(s)); }
  }

  /** Shortening on the way does not change where it ends. */
  lemma {:induction false} FloorTimes(elide: string -> string, can: string -> bool, s: string, n: nat)
    requires Shortening(elide, can) && Able(elide, can, s, n)
    ensures Floor(elide, can, Times(elide, s, n)) == Floor(elide, can, s)
  {
    if n > 0 { FloorTimes(elide, can, s, n - 1); }
  }

  lemma {:induction false} TrimmedFloor(elide: string -> string, can: string -> bool, was: seq<string>, now: seq<string>, counts: seq<nat>)
    requires Shortening(elide, can) && Trimmed(elide, can, was, now, counts)
    ensures FloorSum(elide, can, was) == FloorSum(elide, can, now) <= LeafSum(now)
    ensures Exhausted(ShrinkableLens(can, now)) ==> FloorSum(elide, can, now) == LeafSum(now)
  {
    if was != [] {
      var n := |was| - 1;
      TrimmedFloor(elide, can, was[..n], now[..n], counts[..n]);
      FloorTimes(elide, can, was[n], counts[n]);
      FloorAtMost(elide, can, now[n]);
      ExhaustedSplit(can, now);
    }
  }

  lemma ExhaustedSplit(can: string -> bool, ls: seq<string>)
    requires ls != []
    ensures Exhausted(ShrinkableLens(can, ls)) ==>
      !can(ls[|ls| - 1]) && Exhausted(ShrinkableLens(can, ls[..|ls| - 1]))
  {
    var n, lens := |ls| - 1, ShrinkableLens(can, ls);
    if Exhausted(lens) {
      assert lens[n].None?;
      forall i | 0 <= i < n ensures ShrinkableLens(can, ls[..n])[i].None? { assert lens[i].None?; }
    }
  }

  lemma {:induction false} LeafSumConcat(a: seq<string>, b: seq<string>)
    ensures LeafSum(a + b) == LeafSum(a) + LeafSum(b)
  {
    if b == [] {
      assert a + b == a;
    } else {
      LeafSumConcat(a, b[..|b| - 1]);
      assert (a + b)[..|a + b| - 1] == a + b[..|b| - 1];
    }
  }

  /** The serialized size is that of the structure plus that of the string values. */
  lemma {:induction false} SizeOfShape(v: Json)
    ensures JsonLen(v) == JsonLen(Shape(v)) + LeafSum(Leaves(v))
    decreases v
  {
    match v
    case Str(s) => assert [s][..0] == []; assert EscapedLen("") == 0;
    case Arr(items) => SizeOfItems(items);
    case Obj(members) => SizeOfMembers(members);
    case _ =>
  }

  lemma {:induction false} SizeOfItems(items: seq<Json>)
    ensures ItemsLen(items) == ItemsLen(ItemShapes(items)) + LeafSum(ItemLeaves(items))
    decreases items
  {
    if items != [] {
      SizeOfShape(items[0]);
      SizeOfItems(items[1..]);
      LeafSumConcat(Leaves(items[0]), ItemLeaves(items[1..]));
      ItemShapesLength(items[1..]);
      assert ItemShapes(items)[1..] == ItemShapes(items[1..]);
    }
  }

  lemma {:induction false} SizeOfMembers(ms: seq<Member>)
    ensures MembersLen(ms) == MembersLen(MemberShapes(ms)) + LeafSum(MemberLeaves(ms))
    decreases ms
  {
    if ms != [] {
      SizeOfShape(ms[0].value);
      SizeOfMembers(ms[1..]);
      LeafSumConcat(Leaves(ms[0].value), MemberLeaves(ms[1..]));
      MemberShapesLength(ms[1..]);
      assert MemberShapes(ms)[1..] == MemberShapes(ms[1..]);
    }
  }

  lemma {:induction false} ItemShapesLength(items: seq<Json>)
    ensures |ItemShapes(items)| == |items|
  {
    if items != [] { ItemShapesLength(items[1..]); }
  }

  lemma {:induction false} MemberShapesLength(ms: seq<Member>)
    ensures |MemberShapes(ms)| == |ms|
  {
    if ms != [] { MemberShapesLength(ms[1..]); }
  }

  /** The size of a frame when all its leaves are down to their floors. */
  ghost function LeastLen(e: ObserverEvent): nat {
    ElideIsShortening();
    EnvelopeLen(e) + JsonLen(Shape(e.payload)) + FloorSum(Elide, Shrinks, Leaves(e.payload))
  }

  /** A trimmed frame has at least that size, and exactly that size once every leaf is exhausted. */
  lemma TrimmedAtLeast(e: ObserverEvent, f: ObserverEvent, counts: seq<nat>)
    requires f == e.(payload := f.payload) && Shape(f.payload) == Shape(e.payload)
    requires Trimmed(Elide, Shrinks, Leaves(e.payload), Leaves(f.payload), counts)
    ensures LeastLen(e) <= FrameLen(f)
    ensures Exhausted(ShrinkableLens(Shrinks, Leaves(f.payload))) ==> LeastLen(e) == FrameLen(f)
  {
    ElideIsShortening();
    FrameIsEnvelopePlusPayload(f);
    SizeOfShape(f.payload);
    TrimmedFloor(Elide, Shrinks, Leaves(e.payload), Leaves(f.payload), counts);
    assert EnvelopeLen(f) == EnvelopeLen(e);
  }

  /** The frame shrinks by as much as its payload. */
  lemma FrameSize(e: ObserverEvent, payload: Json)
    ensures FrameLen(e.(payload := payload)) + JsonLen(e.payload) == FrameLen(e) + JsonLen(payload)
  {
    FrameIsEnvelopePlusPayload(e);
    FrameIsEnvelopePlusPayload(e.(payload := payload));
  }

  /** The payload of last resort. */
  function Stub(kind: string, originalBytes: nat): Json {
    Obj([Member("elided", Str(kind + " payload too large")), Member("originalBytes", Num(Decimal(originalBytes)))])
  }

  class ObserverFrame {
    var event: ObserverEvent

    constructor (e: ObserverEvent)
      ensures event == e
    {
      event := e;
    }

    /** Shortens the largest leaf of the payload; the frame gets strictly smaller. */
    method ShortenLeaf(elide: string -> string, can: string -> bool, i: nat, ghost was: seq<string>, ghost counts: seq<nat>)
      returns (ghost next: seq<nat>)
      requires Shortening(elide, can) && IsLargest(ShrinkableLens(can, Leaves(event.payload)), i)
      requires Trimmed(elide, can, was, Leaves(event.payload), counts)
      modifies this
      ensures event == old(event).(payload := event.payload)
      ensures next == counts[i := counts[i] + 1] && Total(next) == Total(counts) + 1
      ensures Trimmed(elide, can, was, Leaves(event.payload), next)
      ensures Shape(event.payload) == old(Shape(event.payload))
      ensures FrameLen(event) < old(FrameLen(event))
    {
      next := counts[i := counts[i] + 1];
      var leaves := Leaves(event.payload);
      var s := elide(leaves[i]);
      TotalUpdate(counts, i);
      TrimmedNext(elide, can, was, leaves, counts, i);
      SetLeafEffect(event.payload, i, s);
      SetLeafKeepsShape(event.payload, i, s);
      FrameSize(event, SetLeaf(event.payload, i, s));
      event := event.(payload := SetLeaf(event.payload, i, s));
    }

    /** Shortens the largest leaf that can shrink, until the frame fits or every leaf is exhausted. */
    method ShortenLeaves(elide: string -> string, can: string -> bool) returns (fits: bool, passes: nat, ghost counts: seq<nat>)
      requires Shortening(elide, can) && FrameLen(event) > MAX_PLAINTEXT_LEN
      modifies this
      ensures event == old(event).(payload := event.payload)
      ensures Trimmed(elide, can, old(Leaves(event.payload)), Leaves(event.payload), counts)
      ensures Shape(event.payload) == old(Shape(event.payload))
      ensures fits <==> FrameLen(event) <= MAX_PLAINTEXT_LEN
      ensures !fits ==> Exhausted(ShrinkableLens(can, Leaves(event.payload)))
      ensures passes == Total(counts)
    {
      ghost var was := Leaves(event.payload);
      fits, passes, counts := false, 0, seq(|was|, _ => 0);
      TrimmedStart(elide, can, was);
      TotalZero(|was|);
      while !fits
        invariant event == old(event).(payload := event.payload)
        invariant Trimmed(elide, can, was, Leaves(event.payload), counts)
        invariant Shape(event.payload) == old(Shape(event.payload))
        invariant fits <==> FrameLen(event) <= MAX_PLAINTEXT_LEN
        invariant passes == Total(counts)
        decreases FrameLen(event)
      {
        var leaf := LargestShrinkableLeaf(ShrinkableLens(can, Leaves(event.payload)));
        if leaf.None? {
          return;
        }
        counts := ShortenLeaf(elide, can, leaf.value, was, counts);
        passes := passes + 1;
        fits := FrameLen(event) <= MAX_PLAINTEXT_LEN;
      }
    }

    /**
     Makes the frame fit: untouched if it fits, else with leaves elided, else with
     a stub for its payload. Keys, numbers and structure stay unless the stub is
     used, which happens exactly when the frame overflows with all its leaves down to
     their floors. Then the result fits exactly if the envelope leaves room for the stub.
     */
    method FitToBudget() returns (stubbed: bool, passes: nat, ghost trimmed: Json, ghost counts: seq<nat>)
      modifies this
      ensures event == old(event).(payload := event.payload)
      ensures old(FrameLen(event)) <= MAX_PLAINTEXT_LEN ==> event == old(event) && !stubbed
      ensures Trimmed(Elide, Shrinks, old(Leaves(event.payload)), Leaves(trimmed), counts) && passes == Total(counts)
      ensures Shape(trimmed) == old(Shape(event.payload))
      ensures !stubbed ==> event.payload == trimmed && FrameLen(event) <= MAX_PLAINTEXT_LEN
      ensures stubbed ==>
                && event.payload == Stub(event.kind, old(JsonLen(event.payload)))
                && Exhausted(ShrinkableLens(Shrinks, Leaves(trimmed)))
      ensures InMemory(old(Leaves(event.payload))) ==> passes <= 2 * |old(Leaves(event.payload))|
      ensures stubbed <==> old(LeastLen(event)) > MAX_PLAINTEXT_LEN
      ensures FrameLen(event) <= MAX_PLAINTEXT_LEN <==>
                || old(LeastLen(event)) <= MAX_PLAINTEXT_LEN
                || old(EnvelopeLen(event) + JsonLen(Stub(event.kind, JsonLen(event.payload)))) <= MAX_PLAINTEXT_LEN
    {
      var originalBytes := JsonLen(event.payload);
      if FrameLen(event) <= MAX_PLAINTEXT_LEN {
        counts := seq(|Leaves(event.payload)|, _ => 0);
        TrimmedStart(Elide, Shrinks, Leaves(event.payload));
        TotalZero(|Leaves(event.payload)|);
        TrimmedAtLeast(event, event, counts);
        return false, 0, event.payload, counts;
      }
      ElideIsShortening();
      var fits;
      fits, passes, counts := ShortenLeaves(Elide, Shrinks);
      TrimmedAtLeast(old(event), event, counts);
      if InMemory(Leaves(old(event).payload)) {
        PassesAtMostTwiceLeaves(Leaves(old(event).payload), Leaves(event.payload), counts);
      }
      stubbed, trimmed := !fits, event.payload;
      if stubbed {
        event := event.(payload := Stub(event.kind, originalBytes));
        FrameIsEnvelopePlusPayload(event);
        assert EnvelopeLen(event) == EnvelopeLen(old(event));
      }
    }
  }

  // -------------------------------------------------- frames that cannot fit

  lemma {:induction false} MembersHold(ms: seq<Member>, i: nat)
    requires i < |ms|
    ensures JsonLen(ms[i].value) <= MembersLen(ms)
    decreases |ms|
  {
    if i > 0 { MembersHold(ms[1..], i - 1); }
  }

  /** The session id comes from the agent and is part of the envelope, which is never trimmed. */
  lemma LongSessionOverflows(e: ObserverEvent, payload: Json)
    requires e.sessionId.Some? && |e.sessionId.value| > MAX_PLAINTEXT_LEN
    ensures FrameLen(e.(payload := payload)) > MAX_PLAINTEXT_LEN
  {
    var f := e.(payload := payload);
    FrameIsEnvelopePlusPayload(f);
    EscapedAtLeastRaw(f.sessionId.value);
    assert Fields(f)[5] == Member("sessionId", Str(f.sessionId.value));
    MembersHold(Fields(f), 5);
  }

  /** A message read from an agent that named its session with 65,536 characters. */
  function LongSession(payload: Json): ObserverEvent {
    var id := seq(MAX_PLAINTEXT_LEN + 1, _ => 's');
    ObserverEvent(0, "", "acp_read", None, None, Some(id), None, None, payload)
  }

  /** No stub makes its frame fit. */
  lemma StubCanOverflow(payload: Json, other: Json)
    ensures FrameLen(LongSession(payload).(payload := other)) > MAX_PLAINTEXT_LEN
    ensures LeastLen(LongSession(payload)) > MAX_PLAINTEXT_LEN
  {
    var e := LongSession(payload);
    LongSessionOverflows(e, other);
    LongSessionOverflows(e, Null);
    FrameIsEnvelopePlusPayload(e.(payload := Null));
    assert EnvelopeLen(e.(payload := Null)) == EnvelopeLen(e);
    SessionInEnvelope(e);
  }

  lemma SessionInEnvelope(e: ObserverEvent)
    requires e.sessionId.Some?
    ensures EnvelopeLen(e) > |e.sessionId.value|
  {
    EscapedAtLeastRaw(e.sessionId.value);
    assert Fields(e)[5] == Member("sessionId", Str(e.sessionId.value));
    MembersHold(Fields(e), 5);
  }

  /** A leaf that can be shortened twice and has come to its end was shortened more than once. */
  lemma ExhaustedAfterTwo(elide: string -> string, can: string -> bool, s: string, now: seq<string>, counts: seq<nat>)
    requires can(s) && can(elide(s))
    requires Trimmed(elide, can, [s], now, counts) && Exhausted(ShrinkableLens(can, now))
    ensures |counts| == 1 && counts[0] >= 2
  {
    assert ShrinkableLens(can, now)[0].None?;
    assert now[0] == Times(elide, s, counts[0]);
    assert Times(elide, s, 0) == s && Times(elide, s, 1) == elide(s);
  }

  /** A leaf of 6100 bytes is elided twice before it is exhausted. */
  lemma TwicePerLeaf(s: string, now: seq<string>, counts: seq<nat>)
    requires IsAscii(s) && |s| == 6_100
    requires Trimmed(Elide, Shrinks, [s], now, counts) && Exhausted(ShrinkableLens(Shrinks, now))
    ensures Total(counts) == 2
  {
    AsciiElisions(s);
    AsciiBytes(s);
    NoLeafMoreThanTwice([s], now, counts, 0);
    ExhaustedAfterTwo(Elide, Shrinks, s, now, counts);
    assert counts == [2] && [2][..0] == [];
  }

  /** More passes than leaves: one leaf of 6100 bytes in a frame that cannot fit takes two. */
  method TwoPassesForOneLeaf(text: string) returns (leaves: nat, passes: nat)
    requires IsAscii(text) && |text| == 6_100
    ensures leaves == 1 && passes == 2
  {
    var frame := new ObserverFrame(LongSession(Str(text)));
    leaves := |Leaves(frame.event.payload)|;
    StubCanOverflow(Str(text), Null);
    var stubbed;
    ghost var trimmed, counts;
    stubbed, passes, trimmed, counts := frame.FitToBudget();
    TwicePerLeaf(text, Leaves(trimmed), counts);
  }
}
