/** The cached order statuses as a function of the reads applied to them, and what they then publish. */
module OrderCache {
  import opened Common
  import opened OrderSnapshots
  import opened AccountReads

  type Statuses = map<string, OrderSnapshot>

  datatype Kind = Regular | Algo

  function SnapshotOf(kind: Kind, o: RestOrder): Option<(string, OrderSnapshot)> {
    if kind == Regular then RegularSnapshot(o) else AlgoSnapshot(o)
  }

  /** The entry belongs to this symbol's list of this kind. */
  predicate Listed(kind: Kind, symbol: string, key: string, s: OrderSnapshot) {
    IsAlgoKey(key) == (kind == Algo) && s.symbol == Some(symbol)
  }

  function PutAll(st: Statuses, kind: Kind, orders: seq<RestOrder>): Statuses {
    if orders == [] then st
    else
      var before := PutAll(st, kind, orders[..|orders| - 1]);
      var last := SnapshotOf(kind, orders[|orders| - 1]);
      if last.None? then before else before[last.value.0 := last.value.1]
  }

  function Without(st: Statuses, kind: Kind, symbol: string): Statuses {
    map key | key in st && !Listed(kind, symbol, key, st[key]) :: st[key]
  }

  function Replace(st: Statuses, kind: Kind, symbol: string, orders: Option<seq<RestOrder>>): Statuses {
    if orders.None? then st else PutAll(Without(st, kind, symbol), kind, orders.value)
  }

  function AppliedOne(st: Statuses, read: Read): Statuses {
    match read
    case OrdersRead(symbol, orders) => Replace(st, Regular, symbol, orders)
    case AlgoOrdersRead(symbol, orders) => Replace(st, Algo, symbol, orders)
    case _ => st
  }

  /** The statuses after the replies of the reads, in order. */
  function Applied(st: Statuses, sent: seq<Read>): Statuses {
    if sent == [] then st else AppliedOne(Applied(st, sent[..|sent| - 1]), sent[|sent| - 1])
  }

  lemma {:induction false} AppliedConcat(st: Statuses, a: seq<Read>, b: seq<Read>)
    ensures Applied(st, a + b) == Applied(Applied(st, a), b)
  {
    if b == [] {
      assert a + b == a;
    } else {
      var n := |b| - 1;
      assert (a + b)[..|a + b| - 1] == a + b[..n];
      AppliedConcat(st, a, b[..n]);
    }
  }

  // ----- what a list of orders puts into the cache -----

  function Found(st: Statuses, key: string): Option<OrderSnapshot> {
    if key in st then Some(st[key]) else None
  }

  /** The last active order of the list with this key. */
  function LastWithKey(kind: Kind, orders: seq<RestOrder>, key: string): Option<OrderSnapshot> {
    if orders == [] then None
    else
      var last := SnapshotOf(kind, orders[|orders| - 1]);
      if last.Some? && last.value.0 == key then Some(last.value.1) else LastWithKey(kind, orders[..|orders| - 1], key)
  }

  lemma {:induction false} PutAllFinds(st: Statuses, kind: Kind, orders: seq<RestOrder>, key: string)
    ensures Found(PutAll(st, kind, orders), key)
         == (if LastWithKey(kind, orders, key).Some? then LastWithKey(kind, orders, key) else Found(st, key))
  {
    if orders == [] {
    } else {
      PutAllFinds(st, kind, orders[..|orders| - 1], key);
    }
  }

  /** Without two orders of one key, a key's entry is the snapshot of the one active order that has it. */
  lemma {:induction false} LastIsTheOrder(kind: Kind, orders: seq<RestOrder>, i: nat)
    requires i < |orders| && SnapshotOf(kind, orders[i]).Some?
    requires forall a, b | 0 <= a < b < |orders| && SnapshotOf(kind, orders[a]).Some? && SnapshotOf(kind, orders[b]).Some?
               :: SnapshotOf(kind, orders[a]).value.0 != SnapshotOf(kind, orders[b]).value.0
    ensures LastWithKey(kind, orders, SnapshotOf(kind, orders[i]).value.0) == Some(SnapshotOf(kind, orders[i]).value.1)
  {
    var n := |orders| - 1;
    if i < n {
      LastIsTheOrder(kind, orders[..n], i);
    }
  }

  // ----- a stream of reads -----

  function KindOf(read: Read): Option<Kind> {
    match read
    case OrdersRead(_, _) => Some(Regular)
    case AlgoOrdersRead(_, _) => Some(Algo)
    case _ => None
  }

  /** A reply to this symbol's read of this kind. */
  predicate Answers(read: Read, kind: Kind, symbol: string) {
    KindOf(read) == Some(kind) && read.symbol == symbol && read.orders.Some?
  }

  /** Every order in the reply belongs to the symbol that was asked for, and regular ids do not look like algo keys. */
  predicate InScope(read: Read) {
    KindOf(read).Some? && read.orders.Some? ==>
      forall o <- read.orders.value | SnapshotOf(KindOf(read).value, o).Some? ::
        Listed(KindOf(read).value, read.symbol, SnapshotOf(KindOf(read).value, o).value.0, SnapshotOf(KindOf(read).value, o).value.1)
  }

  predicate Mentions(read: Read, key: string) {
    KindOf(read).Some? && read.orders.Some? && LastWithKey(KindOf(read).value, read.orders.value, key).Some?
  }

  /** Order ids are unique across symbols: no other symbol's reply has this key. */
  predicate OwnKey(sent: seq<Read>, symbol: string, key: string) {
    forall i | 0 <= i < |sent| && Mentions(sent[i], key) :: sent[i].symbol == symbol
  }

  /** What the cache holds for one symbol and one kind under a key. */
  function Published(st: Statuses, kind: Kind, symbol: string, key: string): Option<OrderSnapshot> {
    if key in st && Listed(kind, symbol, key, st[key]) then Some(st[key]) else None
  }

  lemma {:induction false} LastInScope(kind: Kind, symbol: string, orders: seq<RestOrder>, key: string)
    requires forall o <- orders | SnapshotOf(kind, o).Some? :: Listed(kind, symbol, SnapshotOf(kind, o).value.0, SnapshotOf(kind, o).value.1)
    ensures LastWithKey(kind, orders, key).Some? ==> Listed(kind, symbol, key, LastWithKey(kind, orders, key).value)
  {
    if orders == [] {
    } else {
      assert orders[|orders| - 1] in orders;
      LastInScope(kind, symbol, orders[..|orders| - 1], key);
    }
  }

  /** Right after a reply the cache publishes exactly that reply for the symbol. */
  lemma {:induction false} AnswerIsPublished(st: Statuses, read: Read, kind: Kind, symbol: string, key: string)
    requires Answers(read, kind, symbol) && InScope(read)
    ensures Published(AppliedOne(st, read), kind, symbol, key) == LastWithKey(kind, read.orders.value, key)
  {
    PutAllFinds(Without(st, kind, symbol), kind, read.orders.value, key);
    LastInScope(kind, symbol, read.orders.value, key);
  }

  /** Any other read leaves what is published for the symbol alone. */
  lemma {:induction false} OtherReadKeepsPublished(st: Statuses, read: Read, kind: Kind, symbol: string, key: string)
    requires !Answers(read, kind, symbol) && InScope(read)
    requires Mentions(read, key) ==> read.symbol == symbol
    ensures Published(AppliedOne(st, read), kind, symbol, key) == Published(st, kind, symbol, key)
  {
    if KindOf(read).Some? && read.orders.Some? {
      var k := KindOf(read).value;
      PutAllFinds(Without(st, k, read.symbol), k, read.orders.value, key);
      LastInScope(k, read.symbol, read.orders.value, key);
    }
  }

  /** Over any run of reads, the cache publishes for a symbol exactly the last reply it got for it: nothing is lost to
      other symbols' reads, nothing stale is kept. */
  lemma {:induction false} PublishesLastReply(st: Statuses, sent: seq<Read>, i: nat, kind: Kind, symbol: string, key: string)
    requires i < |sent| && Answers(sent[i], kind, symbol)
    requires forall j | i < j < |sent| :: !Answers(sent[j], kind, symbol)
    requires forall j | 0 <= j < |sent| :: InScope(sent[j])
    requires OwnKey(sent, symbol, key)
    ensures Published(Applied(st, sent), kind, symbol, key) == LastWithKey(kind, sent[i].orders.value, key)
  {
    var n := |sent| - 1;
    var before := Applied(st, sent[..n]);
    assert InScope(sent[n]);
    if i == n {
      AnswerIsPublished(before, sent[n], kind, symbol, key);
    } else {
      assert forall j | 0 <= j < n :: sent[..n][j] == sent[j];
      PublishesLastReply(st, sent[..n], i, kind, symbol, key);
      OtherReadKeepsPublished(before, sent[n], kind, symbol, key);
    }
  }

  // ----- calls -----

  predicate OrderReadsOnly(sent: seq<Read>) {
    forall i | 0 <= i < |sent| :: KindOf(sent[i]).Some?
  }

  predicate Answered(sent: seq<Read>) {
    forall i | 0 <= i < |sent| :: KindOf(sent[i]).Some? && sent[i].orders.Some?
  }

  /** The reads at which a validation breaks off: one that failed, and before it the same symbol's regular orders if it
      was the algo orders that failed. */
  predicate Breaks(lost: seq<Read>) {
    && 1 <= |lost| <= 2 && OrderReadsOnly(lost) && lost[|lost| - 1].orders.None?
    && (|lost| == 2 ==> lost[0].OrdersRead? && lost[0].orders.Some? && lost[1].AlgoOrdersRead? && lost[0].symbol == lost[1].symbol)
  }

  /** Algo orders that fail alone: no regular orders were read just before them. */
  predicate Alone(applied: seq<Read>, lost: seq<Read>)
    requires Breaks(lost)
  {
    |lost| == 1 && lost[0].AlgoOrdersRead? && applied != [] ==> !applied[|applied| - 1].OrdersRead?
  }

  /** Which of the reads that were sent reached the cache: all of them, or all before the break. */
  predicate Reached(ok: bool, sent: seq<Read>, applied: seq<Read>) {
    && applied <= sent && Answered(applied)
    && (if ok then applied == sent else Breaks(sent[|applied|..]) && Alone(applied, sent[|applied|..]))
  }

  /** What any call does to the statuses, whether it succeeds or fails: the stored projection it took over, if it did, the
      order reads it sent, and those of them that reached the cache. */
  datatype Call = Call(ok: bool, reset: Option<Statuses>, sent: seq<Read>, applied: seq<Read>)

  function Effect(st: Statuses, c: Call): Statuses { Applied(c.reset.GetOr(st), c.applied) }

  function ProjectionAfter(last: Option<Statuses>, c: Call): Option<Statuses> { if c.reset.Some? then c.reset else last }

  /** A call that fails without having sent an order read failed before, and applied nothing. */
  predicate Sound(c: Call) {
    if c.sent == [] then c.applied == [] else Reached(c.ok, c.sent, c.applied)
  }

  /** A regular reply whose symbol's algo read, the very next one, fails. */
  predicate BrokenOff(sent: seq<Read>) {
    && |sent| >= 2 && sent[0].OrdersRead?
    && sent[1].AlgoOrdersRead? && sent[1].orders.None? && sent[0].symbol == sent[1].symbol
  }

  predicate IsReply(read: Read) { KindOf(read).Some? && read.orders.Some? }

  /** The replies to the reads, save a regular one that is broken off. */
  function Heard(sent: seq<Read>): seq<Read> {
    if sent == [] then []
    else (if IsReply(sent[0]) && !BrokenOff(sent) then [sent[0]] else []) + Heard(sent[1..])
  }

  lemma {:induction false} HeardBeforeBreak(applied: seq<Read>, lost: seq<Read>)
    requires Answered(applied)
    requires lost == [] || (Breaks(lost) && Alone(applied, lost))
    ensures Heard(applied + lost) == applied
  {
    var sent := applied + lost;
    if applied != [] {
      assert sent[1..] == applied[1..] + lost;
      HeardBeforeBreak(applied[1..], lost);
    } else if lost != [] {
      assert sent == lost;
      var n := |lost| - 1;
      assert lost[n..][1..] == [] && Heard(lost[n..]) == [];
      assert n == 1 ==> BrokenOff(lost);
    }
  }

  /** A reply reaches the cache exactly unless it is a regular one whose symbol's algo read fails right after it. */
  lemma {:induction false} AppliesWhatIsHeard(c: Call)
    requires Sound(c)
    ensures c.applied == Heard(c.sent)
  {
    if c.sent == [] {
    } else {
      var lost := c.sent[|c.applied|..];
      assert c.sent == c.applied + lost;
      HeardBeforeBreak(c.applied, lost);
    }
  }
}
