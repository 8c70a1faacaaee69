/** The secondary log index: keys ordered by block, transaction and log, and the scan of a block range. */
module LogIndex {
  import opened Arithmetic
  import opened BigEndian
  import opened Options
  import opened PrefixScan

  const LogPrefix: Byte := 76
  const TwoTo32: nat := 0x1_0000_0000

  type Log = nat

  datatype Position = Position(block: nat, tx: nat, log: nat)

  /** A transaction's place in the chain. */
  datatype Place = Place(block: nat, tx: nat)

  datatype IndexedLog = IndexedLog(position: Position, log: Log)

  /* ---------- keys ---------- */

  /** Numbers are cut to 64 and 32 bits. */
  function LogIndexKey(p: Position): Bytes {
    [LogPrefix] + Encode(p.block, 8) + Encode(p.tx, 4) + Encode(p.log, 4)
  }

  function LogIndexBlockPrefix(block: nat): Bytes {
    [LogPrefix] + Encode(block, 8)
  }

  function ParseLogIndexKey(key: Bytes): Option<Position> {
    if |key| != 17 || key[0] != LogPrefix then None
    else Some(Position(Value(key[1..9]), Value(key[9..13]), Value(key[13..17])))
  }

  predicate InRange(p: Position) {
    p.block < TwoTo64 && p.tx < TwoTo32 && p.log < TwoTo32
  }

  lemma Widths()
    ensures Pow256(4) == TwoTo32 && Pow256(8) == TwoTo64
  {
    assert Pow256(1) == 256 && Pow256(2) == 65536 && Pow256(3) == 16777216;
    assert Pow256(5) == 256 * TwoTo32 && Pow256(6) == 65536 * TwoTo32 && Pow256(7) == 16777216 * TwoTo32;
  }

  /** Every position in range is recovered from its key. */
  lemma ParseKey(p: Position)
    requires InRange(p)
    ensures ParseLogIndexKey(LogIndexKey(p)) == Some(p)
  {
    Widths();
    var k := LogIndexKey(p);
    assert k[1..9] == Encode(p.block, 8) && k[9..13] == Encode(p.tx, 4) && k[13..17] == Encode(p.log, 4);
    DecodeEncode(p.block, 8);
    DecodeEncode(p.tx, 4);
    DecodeEncode(p.log, 4);
  }

  /** Only the key of a position parses to it, and what parses is in range. */
  lemma KeyOfParsed(key: Bytes)
    requires ParseLogIndexKey(key).Some?
    ensures LogIndexKey(ParseLogIndexKey(key).value) == key && InRange(ParseLogIndexKey(key).value)
  {
    Widths();
    EncodeDecode(key[1..9]);
    EncodeDecode(key[9..13]);
    EncodeDecode(key[13..17]);
    ValueBound(key[1..9]);
    ValueBound(key[9..13]);
    ValueBound(key[13..17]);
    assert key == [key[0]] + key[1..9] + key[9..13] + key[13..17];
  }

  /** Positions in chain order. */
  predicate Earlier(p: Position, q: Position) {
    p.block < q.block || (p.block == q.block && (p.tx < q.tx || (p.tx == q.tx && p.log < q.log)))
  }

  lemma NumbersInOrder(m: nat, n: nat, width: nat)
    requires m < Pow256(width) && n < Pow256(width)
    ensures LexLess(Encode(m, width), Encode(n, width)) <==> m < n
    ensures Encode(m, width) == Encode(n, width) <==> m == n
  {
    DecodeEncode(m, width);
    DecodeEncode(n, width);
    LexIsNumeric(Encode(m, width), Encode(n, width));
  }

  /** The order of the keys is the order of the positions. */
  lemma KeysInOrder(p: Position, q: Position)
    requires InRange(p) && InRange(q)
    ensures LexLess(LogIndexKey(p), LogIndexKey(q)) <==> Earlier(p, q)
  {
    Widths();
    var (pb, pt, pl) := (Encode(p.block, 8), Encode(p.tx, 4), Encode(p.log, 4));
    var (qb, qt, ql) := (Encode(q.block, 8), Encode(q.tx, 4), Encode(q.log, 4));
    NumbersInOrder(p.block, q.block, 8);
    NumbersInOrder(p.tx, q.tx, 4);
    NumbersInOrder(p.log, q.log, 4);
    LexParts([LogPrefix], [LogPrefix], pb + (pt + pl), qb + (qt + ql));
    LexParts(pb, qb, pt + pl, qt + ql);
    LexParts(pt, qt, pl, ql);
    assert LogIndexKey(p) == [LogPrefix] + (pb + (pt + pl)) && LogIndexKey(q) == [LogPrefix] + (qb + (qt + ql));
    LexTotal([LogPrefix], [LogPrefix]);
  }

  /** A block's prefix selects the keys of that block. */
  lemma BlockPrefixSelects(p: Position, block: nat)
    requires InRange(p) && block < TwoTo64
    ensures HasPrefix(LogIndexKey(p), LogIndexBlockPrefix(block)) <==> p.block == block
  {
    Widths();
    NumbersInOrder(p.block, block, 8);
    assert LogIndexKey(p)[..9] == [LogPrefix] + Encode(p.block, 8);
    assert LogIndexKey(p)[..9][1..] == Encode(p.block, 8) && LogIndexBlockPrefix(block)[1..] == Encode(block, 8);
  }

  /* ---------- the index of some receipts ---------- */

  /** The logs of each receipt; a missing log is skipped but keeps its number. */
  type Receipts = map<Place, seq<Option<Log>>>

  function LogAt(receipts: Receipts, p: Position): Option<Log> {
    var place := Place(p.block, p.tx);
    if place in receipts && p.log < |receipts[place]| then receipts[place][p.log] else None
  }

  ghost predicate ReceiptsInRange(receipts: Receipts) {
    forall place <- receipts.Keys ::
      place.block < TwoTo64 && place.tx < TwoTo32 && |receipts[place]| <= TwoTo32
  }

  /** The value codec loses nothing. */
  ghost predicate Codec(encode: Log -> Bytes, decode: Bytes -> Option<Log>) {
    forall l: Log :: decode(encode(l)) == Some(l)
  }

  ghost predicate StoredAs(store: map<Bytes, Bytes>, decode: Bytes -> Option<Log>, p: Position, log: Option<Log>) {
    match log
    case None => LogIndexKey(p) !in store
    case Some(l) => LogIndexKey(p) in store && decode(store[LogIndexKey(p)]) == Some(l)
  }

  /** The store's log keys are exactly those of the receipts. */
  ghost predicate IndexOf(store: map<Bytes, Bytes>, decode: Bytes -> Option<Log>, receipts: Receipts) {
    forall p: Position :: InRange(p) ==> StoredAs(store, decode, p, LogAt(receipts, p))
  }

  ghost predicate NoLogKeys(store: map<Bytes, Bytes>) {
    forall p: Position :: InRange(p) ==> LogIndexKey(p) !in store
  }

  ghost predicate SameAt(a: map<Bytes, Bytes>, b: map<Bytes, Bytes>, k: Bytes) {
    (k in a <==> k in b) && (k in a ==> a[k] == b[k])
  }

  /** A store that differs from a base by holding the logs of the receipts. */
  ghost predicate Over(base: map<Bytes, Bytes>, store: map<Bytes, Bytes>, decode: Bytes -> Option<Log>,
                       receipts: Receipts) {
    && (forall p: Position :: InRange(p) ==> Layered(base, store, decode, p, LogAt(receipts, p)))
    && (forall k: Bytes :: ParseLogIndexKey(k).None? ==> SameAt(store, base, k))
  }

  ghost predicate Layered(base: map<Bytes, Bytes>, store: map<Bytes, Bytes>, decode: Bytes -> Option<Log>, p: Position,
                          log: Option<Log>)
  {
    match log
    case None => SameAt(store, base, LogIndexKey(p))
    case Some(l) => LogIndexKey(p) in store && decode(store[LogIndexKey(p)]) == Some(l)
  }

  /** Built on a store without log keys, the store is the index of the receipts. */
  lemma BuiltOnEmpty(base: map<Bytes, Bytes>, store: map<Bytes, Bytes>, decode: Bytes -> Option<Log>,
                     receipts: Receipts)
    requires Over(base, store, decode, receipts) && NoLogKeys(base)
    ensures IndexOf(store, decode, receipts)
  {
    forall p: Position | InRange(p) ensures StoredAs(store, decode, p, LogAt(receipts, p)) {
      assert Layered(base, store, decode, p, LogAt(receipts, p));
    }
  }

  lemma KeysDiffer(p: Position, q: Position)
    requires InRange(p) && InRange(q) && p != q
    ensures LogIndexKey(p) != LogIndexKey(q)
  {
    ParseKey(p);
    ParseKey(q);
  }

  lemma OneMoreLog(base: map<Bytes, Bytes>, store: map<Bytes, Bytes>, encode: Log -> Bytes,
                   decode: Bytes -> Option<Log>,
                   done: Receipts, place: Place, logs: seq<Option<Log>>, j: nat)
    requires Codec(encode, decode) && j < |logs| <= TwoTo32 && place.block < TwoTo64 && place.tx < TwoTo32
    requires Over(base, store, decode, done[place := logs[..j]])
    ensures
      var p := Position(place.block, place.tx, j);
      var store' := if logs[j].Some? then store[LogIndexKey(p) := encode(logs[j].value)] else store;
      Over(base, store', decode, done[place := logs[..j + 1]])
  {
    var p := Position(place.block, place.tx, j);
    var store' := if logs[j].Some? then store[LogIndexKey(p) := encode(logs[j].value)] else store;
    var before, after := done[place := logs[..j]], done[place := logs[..j + 1]];
    ParseKey(p);
    forall q: Position | InRange(q) ensures Layered(base, store', decode, q, LogAt(after, q)) {
      assert Layered(base, store, decode, q, LogAt(before, q));
      if q != p {
        KeysDiffer(p, q);
        assert LogAt(after, q) == LogAt(before, q);
      }
    }
  }

  lemma EmptyReceipt(base: map<Bytes, Bytes>, store: map<Bytes, Bytes>, decode: Bytes -> Option<Log>, done: Receipts,
                     place: Place, logs: seq<Option<Log>>)
    requires Over(base, store, decode, done) && place !in done
    ensures Over(base, store, decode, done[place := logs[..0]])
  {
    forall p: Position | InRange(p) ensures Layered(base, store, decode, p, LogAt(done[place := logs[..0]], p)) {
      assert Layered(base, store, decode, p, LogAt(done, p));
    }
  }

  /** Writes a key for every log of every receipt, and changes nothing else. */
  method RebuildLogIndex(store: map<Bytes, Bytes>, receipts: Receipts, encode: Log -> Bytes,
                         ghost decode: Bytes -> Option<Log>)
    returns (out: map<Bytes, Bytes>)
    requires ReceiptsInRange(receipts) && Codec(encode, decode)
    ensures Over(store, out, decode, receipts)
  {
    out := store;
    var rest := receipts.Keys;
    ghost var done: Receipts := map[];
    while rest != {}
      invariant rest <= receipts.Keys && done.Keys == receipts.Keys - rest
      invariant forall place <- done.Keys :: done[place] == receipts[place]
      invariant Over(store, out, decode, done)
    {
      var place :| place in rest;
      rest := rest - {place};
      out := IndexReceipt(store, out, encode, decode, done, place, receipts[place]);
      done := done[place := receipts[place]];
    }
    assert done == receipts;
  }

  method IndexReceipt(ghost base: map<Bytes, Bytes>, store: map<Bytes, Bytes>, encode: Log -> Bytes,
                      ghost decode: Bytes -> Option<Log>, ghost done: Receipts, place: Place, logs: seq<Option<Log>>)
    returns (out: map<Bytes, Bytes>)
    requires Over(base, store, decode, done) && place !in done && Codec(encode, decode)
    requires place.block < TwoTo64 && place.tx < TwoTo32 && |logs| <= TwoTo32
    ensures Over(base, out, decode, done[place := logs])
  {
    out := store;
    EmptyReceipt(base, store, decode, done, place, logs);
    for j := 0 to |logs|
      invariant Over(base, out, decode, done[place := logs[..j]])
    {
      OneMoreLog(base, out, encode, decode, done, place, logs, j);
      if logs[j].Some? {
        out := out[LogIndexKey(Position(place.block, place.tx, j)) := encode(logs[j].value)];
      }
    }
    assert logs[..|logs|] == logs;
  }

  /* ---------- scanning a range ---------- */

  ghost predicate InOrder(logs: seq<IndexedLog>) {
    forall i, j | 0 <= i < j < |logs| :: Earlier(logs[i].position, logs[j].position)
  }

  /** Exactly the logs of the receipts in the blocks, in chain order, each once. */
  ghost predicate LogsOf(logs: seq<IndexedLog>, receipts: Receipts, fromBlock: nat, toBlock: int) {
    && InOrder(logs)
    && (forall p: Position, l: Log :: IndexedLog(p, l) in logs <==>
          InRange(p) && fromBlock <= p.block <= toBlock && LogAt(receipts, p) == Some(l))
  }

  /** What the scan makes of one key. */
  function Visit(store: map<Bytes, Bytes>, decode: Bytes -> Option<Log>, key: Bytes): Option<IndexedLog>
    requires key in store
  {
    var p := ParseLogIndexKey(key);
    var l := decode(store[key]);
    if p.None? || l.None? then None else Some(IndexedLog(p.value, l.value))
  }

  /** In the index of the receipts, the keys of a block give the logs of its receipts. */
  lemma VisitExact(store: map<Bytes, Bytes>, decode: Bytes -> Option<Log>, receipts: Receipts, block: nat, p: Position,
                   l: Log)
    requires IndexOf(store, decode, receipts) && block < TwoTo64 && InRange(p)
    ensures
      var k := LogIndexKey(p);
      k in store && HasPrefix(k, LogIndexBlockPrefix(block)) && Visit(store, decode, k) == Some(IndexedLog(p, l))
      <==> p.block == block && LogAt(receipts, p) == Some(l)
  {
    ParseKey(p);
    BlockPrefixSelects(p, block);
    assert StoredAs(store, decode, p, LogAt(receipts, p));
  }

  ghost predicate VisitedUpto(store: map<Bytes, Bytes>, decode: Bytes -> Option<Log>, keys: seq<Bytes>,
                              logs: seq<IndexedLog>)
    requires forall k <- keys :: k in store
  {
    && InOrder(logs)
    && (forall il: IndexedLog ::
          il in logs <==>
          LogIndexKey(il.position) in keys && Visit(store, decode, LogIndexKey(il.position)) == Some(il))
  }

  method ScanBlock(store: map<Bytes, Bytes>, decode: Bytes -> Option<Log>, block: nat, ghost receipts: Receipts)
    returns (logs: seq<IndexedLog>)
    requires IndexOf(store, decode, receipts) && block < TwoTo64
    ensures LogsOf(logs, receipts, block, block)
  {
    var keys := IteratePrefix(store, LogIndexBlockPrefix(block));
    logs := [];
    for i := 0 to |keys|
      invariant forall k <- keys :: k in store
      invariant VisitedUpto(store, decode, keys[..i], logs)
    {
      VisitStep(store, decode, keys, i, logs);
      var p := ParseLogIndexKey(keys[i]);
      if p.None? { continue; }
      var l := decode(store[keys[i]]);
      if l.None? { continue; }
      logs := logs + [IndexedLog(p.value, l.value)];
    }
    assert keys[..|keys|] == keys;
    forall p: Position, l: Log
      ensures IndexedLog(p, l) in logs <==> InRange(p) && block <= p.block <= block && LogAt(receipts, p) == Some(l)
    {
      if InRange(p) {
        VisitExact(store, decode, receipts, block, p, l);
      } else if Visited(store, decode, keys, IndexedLog(p, l)) {
        KeyOfParsed(LogIndexKey(p));
        assert false;
      }
    }
  }

  ghost predicate Visited(store: map<Bytes, Bytes>, decode: Bytes -> Option<Log>, keys: seq<Bytes>, il: IndexedLog)
    requires forall k <- keys :: k in store
  {
    LogIndexKey(il.position) in keys && Visit(store, decode, LogIndexKey(il.position)) == Some(il)
  }

  lemma VisitStep(store: map<Bytes, Bytes>, decode: Bytes -> Option<Log>, keys: seq<Bytes>, i: nat,
                  logs: seq<IndexedLog>)
    requires i < |keys| && Ascending(keys) && (forall k <- keys :: k in store)
      && VisitedUpto(store, decode, keys[..i], logs)
    ensures
      var v := Visit(store, decode, keys[i]);
      VisitedUpto(store, decode, keys[..i + 1], if v.None? then logs else logs + [v.value])
  {
    var v := Visit(store, decode, keys[i]);
    assert keys[..i + 1] == keys[..i] + [keys[i]];
    if v.Some? {
      var q := v.value.position;
      KeyOfParsed(keys[i]);
      forall n | 0 <= n < |logs| ensures Earlier(logs[n].position, q) {
        var k := LogIndexKey(logs[n].position);
        assert logs[n] in logs && k in keys[..i];
        KeyOfParsed(k);
        KeysInOrder(logs[n].position, q);
      }
    }
  }

  /** Blocks are 64-bit numbers, so the last one has no successor: a scan up to it does not end. */
  function BlockAfter(fromBlock: nat, n: nat): nat {
    (fromBlock + n) % TwoTo64
  }

  lemma ScanEndsExactly(fromBlock: nat, toBlock: nat)
    requires fromBlock <= toBlock < TwoTo64
    ensures toBlock < TwoTo64 - 1 ==> BlockAfter(fromBlock, toBlock - fromBlock + 1) > toBlock
    ensures toBlock == TwoTo64 - 1 ==> forall n: nat :: BlockAfter(fromBlock, n) <= toBlock
  {
    ModBasics(toBlock + 1, TwoTo64);
  }

  /** Walks the blocks one by one. */
  method FilterLogs(store: map<Bytes, Bytes>, decode: Bytes -> Option<Log>, fromBlock: nat, toBlock: nat,
                    ghost receipts: Receipts)
    returns (logs: seq<IndexedLog>)
    requires IndexOf(store, decode, receipts) && fromBlock < TwoTo64 && toBlock < TwoTo64 - 1
    ensures LogsOf(logs, receipts, fromBlock, toBlock)
  {
    logs := [];
    if toBlock < fromBlock { return; }
    var b := fromBlock;
    while b <= toBlock
      invariant fromBlock <= b <= toBlock + 1
      invariant LogsOf(logs, receipts, fromBlock, b - 1)
      decreases toBlock + 1 - b
    {
      var more := ScanBlock(store, decode, b, receipts);
      Joined(logs, more, receipts, fromBlock, b);
      logs := logs + more;
      b := b + 1;
    }
  }

  lemma Joined(logs: seq<IndexedLog>, more: seq<IndexedLog>, receipts: Receipts, fromBlock: nat, block: nat)
    requires LogsOf(logs, receipts, fromBlock, block - 1) && LogsOf(more, receipts, block, block) && fromBlock <= block
    ensures LogsOf(logs + more, receipts, fromBlock, block)
  {
    var all := logs + more;
    forall i, j | 0 <= i < j < |all| ensures Earlier(all[i].position, all[j].position) {
      if i < |logs| <= j {
        var (x, y) := (logs[i], more[j - |logs|]);
        assert x in logs && y in more;
        assert IndexedLog(x.position, x.log) in logs && IndexedLog(y.position, y.log) in more;
      }
    }
  }
}
