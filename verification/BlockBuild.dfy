/**
 Choosing transactions for a block: pending entries grouped by sender, a fee auction among the senders' next nonces,
 and the gas limit.
 */
module BlockBuild {
  import opened Arithmetic
  import opened MapSums
  import opened Mempool
  import opened Options

  type Lists = map<Address, seq<Entry>>

  ghost predicate Sorted(list: seq<Entry>) {
    forall i, j | 0 <= i < j < |list| :: list[i].nonce < list[j].nonce
  }

  function ListOf(lists: Lists, a: Address): seq<Entry> {
    if a in lists then lists[a] else []
  }

  /* ---------- grouping ---------- */

  function InsertByNonce(list: seq<Entry>, e: Entry): seq<Entry> {
    if list == [] || e.nonce < list[0].nonce then [e] + list else [list[0]] + InsertByNonce(list[1..], e)
  }

  lemma {:induction false} InsertSorts(list: seq<Entry>, e: Entry)
    requires Sorted(list) && forall x <- list :: x.nonce != e.nonce
    ensures Sorted(InsertByNonce(list, e))
    ensures forall x :: x in InsertByNonce(list, e) <==> x in list || x == e
    decreases |list|
  {
    if list != [] && e.nonce >= list[0].nonce {
      var rest := list[1..];
      assert list == [list[0]] + rest;
      InsertSorts(rest, e);
      var r := InsertByNonce(rest, e);
      forall k | 0 <= k < |r| ensures list[0].nonce < r[k].nonce {
        assert r[k] in r;
      }
    }
  }

  /** The entries that may be chosen. */
  ghost predicate Candidate(pending: seq<Entry>, kind: Kind, exclude: set<Hash>, e: Entry) {
    e in pending && e.kind == kind && e.hash !in exclude
  }

  ghost predicate Grouped(lists: Lists, pending: seq<Entry>, kind: Kind, exclude: set<Hash>) {
    && (forall a <- lists.Keys :: Sorted(lists[a]))
    && (forall a: Address, e: Entry :: e in ListOf(lists, a) <==> Candidate(pending, kind, exclude, e) && e.sender == a)
  }

  /** One more pending entry, put in its sender's list or passed over. */
  lemma GroupStep(lists: Lists, pending: seq<Entry>, kind: Kind, exclude: set<Hash>, e: Entry)
    requires Grouped(lists, pending, kind, exclude) && Unique(pending + [e])
    ensures e.kind != kind || e.hash in exclude ==> Grouped(lists, pending + [e], kind, exclude)
    ensures e.kind == kind && e.hash !in exclude ==>
            Grouped(lists[e.sender := InsertByNonce(ListOf(lists, e.sender), e)], pending + [e], kind, exclude)
  {
    var more := pending + [e];
    if e.kind == kind && e.hash !in exclude {
      var list := ListOf(lists, e.sender);
      forall x <- list ensures x.nonce != e.nonce {
        assert x in ListOf(lists, e.sender) && Candidate(pending, kind, exclude, x) && x.sender == e.sender;
        var k :| 0 <= k < |pending| && pending[k] == x;
        assert more[k] == x && more[|pending|] == e;
      }
      InsertSorts(list, e);
      var lists' := lists[e.sender := InsertByNonce(list, e)];
      forall a: Address, x: Entry
        ensures x in ListOf(lists', a) <==> Candidate(more, kind, exclude, x) && x.sender == a
      {
        assert x in ListOf(lists, a) <==> Candidate(pending, kind, exclude, x) && x.sender == a;
      }
    }
  }

  method GroupPendingBySender(pending: seq<Entry>, kind: Kind, exclude: set<Hash>) returns (lists: Lists)
    requires Unique(pending)
    ensures Grouped(lists, pending, kind, exclude)
  {
    lists := map[];
    for i := 0 to |pending|
      invariant Grouped(lists, pending[..i], kind, exclude)
    {
      var e := pending[i];
      assert pending[..i + 1] == pending[..i] + [e];
      GroupStep(lists, pending[..i], kind, exclude, e);
      if e.kind == kind && e.hash !in exclude {
        lists := lists[e.sender := InsertByNonce(ListOf(lists, e.sender), e)];
      }
    }
    assert pending[..|pending|] == pending;
  }

  /* ---------- the auction ---------- */

  /** The entry of a list with the wanted nonce; the list is in nonce order, so a gap ends the search. */
  method FindReady(list: seq<Entry>, want: nat) returns (found: Option<Entry>)
    requires Sorted(list)
    ensures found.Some? ==> found.value in list && found.value.nonce == want
    ensures found.None? ==> forall e <- list :: e.nonce != want
  {
    for i := 0 to |list|
      invariant forall j | 0 <= j < i :: list[j].nonce < want
    {
      var e := list[i];
      if e.nonce < want { continue; }
      if e.nonce > want { return None; }
      return Some(e);
    }
    return None;
  }

  /** An entry whose turn has come. */
  ghost predicate Ready(lists: Lists, next: map<Address, nat>, e: Entry) {
    e.sender in lists && e in lists[e.sender] && e.sender in next && e.nonce == next[e.sender]
  }

  /** A best ready entry. */
  ghost predicate Best(lists: Lists, next: map<Address, nat>, e: Entry) {
    Ready(lists, next, e) && forall x: Entry :: Ready(lists, next, x) ==> x.price <= e.price
  }

  ghost predicate WellListed(lists: Lists) {
    forall a <- lists.Keys :: Sorted(lists[a]) && forall e <- lists[a] :: e.sender == a
  }

  /** Scans the senders in no particular order. */
  method PickBestReady(lists: Lists, next: map<Address, nat>) returns (best: Option<Entry>)
    requires WellListed(lists) && lists.Keys <= next.Keys
    ensures best.Some? ==> Best(lists, next, best.value)
    ensures best.None? ==> forall e: Entry :: !Ready(lists, next, e)
  {
    best := None;
    var rest := lists.Keys;
    while rest != {}
      invariant rest <= lists.Keys
      invariant best.Some? ==> Ready(lists, next, best.value)
      invariant forall e: Entry ::
        Ready(lists, next, e) && e.sender !in rest ==> best.Some? && e.price <= best.value.price
    {
      var a :| a in rest;
      rest := rest - {a};
      var found := FindReady(lists[a], next[a]);
      if found.None? { continue; }
      OneInList(lists[a], found.value);
      if best.None? || found.value.price > best.value.price {
        best := found;
      }
    }
  }

  /** In a sorted list a nonce has one entry. */
  lemma OneInList(list: seq<Entry>, e: Entry)
    requires Sorted(list) && e in list
    ensures forall f <- list :: f.nonce == e.nonce ==> f == e
  {
  }

  method FilterEntry(list: seq<Entry>, hash: Hash) returns (out: seq<Entry>)
    requires Sorted(list)
    ensures Sorted(out) && forall e :: e in out <==> e in list && e.hash != hash
    ensures |out| <= |list| && ((exists e <- list :: e.hash == hash) ==> |out| < |list|)
  {
    out := [];
    for i := 0 to |list|
      invariant Sorted(out) && |out| <= i
      invariant forall e :: e in out <==> e in list[..i] && e.hash != hash
      invariant (exists e <- list[..i] :: e.hash == hash) ==> |out| < i
    {
      assert list[..i + 1] == list[..i] + [list[i]];
      forall k | 0 <= k < |out| ensures out[k].nonce < list[i].nonce {
        assert out[k] in out;
        var j :| 0 <= j < i && list[j] == out[k];
      }
      if list[i].hash != hash {
        out := out + [list[i]];
      }
    }
    assert list[..|list|] == list;
  }

  /* ---------- gas ---------- */

  /** The block's gas check, in 64-bit arithmetic; a limit of zero is no limit. */
  predicate Accepts(total: nat, gas: nat, limit: nat) {
    limit == 0 || (total + gas) % TwoTo64 <= limit
  }

  /** Below the limit, a transaction is accepted exactly when it fits or when the sum wraps around. */
  lemma AcceptsExactly(total: nat, gas: nat, limit: nat)
    requires 0 < limit < TwoTo64 && total <= limit && gas < TwoTo64
    ensures Accepts(total, gas, limit) <==> total + gas <= limit || total + gas >= TwoTo64
  {
    if total + gas < TwoTo64 {
      ModBasics(total + gas, TwoTo64);
    } else {
      DivModUnique(total + gas, TwoTo64, 1, total + gas - TwoTo64);
    }
  }

  ghost function GasOf(out: seq<Entry>): nat {
    if out == [] then 0 else GasOf(out[..|out| - 1]) + out[|out| - 1].gas
  }

  /* ---------- chains ---------- */

  ghost function CountOf(out: seq<Entry>, a: Address): nat {
    if out == [] then 0 else CountOf(out[..|out| - 1], a) + if out[|out| - 1].sender == a then 1 else 0
  }

  /** Each sender's nonces run on from its account nonce without a gap, in order. */
  ghost predicate Chained(out: seq<Entry>, account: Address -> nat) {
    forall i | 0 <= i < |out| :: out[i].nonce == account(out[i].sender) + CountOf(out[..i], out[i].sender)
  }

  /** A later choice that was already its sender's turn did not pay more. */
  ghost predicate Greedy(out: seq<Entry>) {
    forall i, j | 0 <= i < j < |out| ::
      CountOf(out[..i], out[j].sender) == CountOf(out[..j], out[j].sender) ==> out[i].price >= out[j].price
  }

  lemma {:induction false} CountGrows(out: seq<Entry>, i: nat, j: nat, a: Address)
    requires i <= j <= |out|
    ensures CountOf(out[..i], a) <= CountOf(out[..j], a)
    decreases j
  {
    if i < j {
      CountGrows(out, i, j - 1, a);
      assert out[..j][..j - 1] == out[..j - 1];
    }
  }

  /** No transaction is chosen twice. */
  lemma ChainsAreDistinct(out: seq<Entry>, account: Address -> nat, i: nat, j: nat)
    requires Chained(out, account) && i < j < |out|
    ensures out[i] != out[j]
  {
    var a := out[i].sender;
    assert out[..i + 1][..i] == out[..i];
    CountGrows(out, i + 1, j, a);
  }

  /* ---------- selection ---------- */

  datatype Job = Job(pending: seq<Entry>, kind: Kind, exclude: set<Hash>, account: Address -> nat, limit: nat)

  /** A candidate that can go in a block. */
  ghost predicate Good(t: Job, e: Entry) {
    Candidate(t.pending, t.kind, t.exclude, e) && e.readable && e.convertible
  }

  /** The nonce whose turn it is for a sender, after the chosen ones. */
  ghost function Turn(t: Job, out: seq<Entry>, a: Address): nat {
    t.account(a) + CountOf(out, a)
  }

  ghost predicate TooBig(t: Job, out: seq<Entry>, e: Entry) {
    t.limit > 0 && GasOf(out) + e.gas > t.limit
  }

  /** The gas check turns the entry down after the first `k` choices. */
  ghost predicate Refused(t: Job, out: seq<Entry>, k: nat, e: Entry)
    requires k <= |out|
  {
    !Accepts(GasOf(out[..k]) % TwoTo64, e.gas, t.limit)
  }

  /** By the first `i` choices the entry was turned down, at a point where it paid the most. */
  ghost predicate Skipped(t: Job, out: seq<Entry>, i: nat, e: Entry)
    requires i <= |out|
  {
    exists k | 0 <= k <= i :: Refused(t, out, k, e) && (k < |out| ==> out[k].price <= e.price)
  }

  ghost predicate AllGood(t: Job, out: seq<Entry>) {
    forall e <- out :: Good(t, e)
  }

  ghost predicate Tracks(t: Job, next: map<Address, nat>, out: seq<Entry>) {
    forall a <- next.Keys :: next[a] == Turn(t, out, a)
  }

  /** Senders still considered list candidates only, and all their good ones. */
  ghost predicate Complete(t: Job, lists: Lists) {
    && (forall a <- lists.Keys, e <- lists[a] :: Candidate(t.pending, t.kind, t.exclude, e) && e.sender == a)
    && (forall e: Entry :: Good(t, e) && e.sender in lists ==> e in lists[e.sender])
  }

  ghost predicate PaidMost(lists: Lists, next: map<Address, nat>, out: seq<Entry>, k: nat, e: Entry) {
    if k < |out| then out[k].price <= e.price else forall x: Entry :: Ready(lists, next, x) ==> x.price <= e.price
  }

  ghost predicate Dropped(t: Job, lists: Lists, next: map<Address, nat>, out: seq<Entry>, e: Entry) {
    exists k | 0 <= k <= |out| :: Refused(t, out, k, e) && PaidMost(lists, next, out, k, e)
  }

  /** A sender is passed over only when its next transaction was turned down. */
  ghost predicate PassedOver(t: Job, lists: Lists, next: map<Address, nat>, out: seq<Entry>) {
    forall e: Entry :: Good(t, e) && e.sender !in lists && e.nonce == Turn(t, out, e.sender) ==>
      Dropped(t, lists, next, out, e)
  }

  /** No listed entry outbids a choice made when it was already its sender's turn. */
  ghost predicate NoneOutbid(t: Job, lists: Lists, out: seq<Entry>) {
    forall i, e: Entry | 0 <= i < |out| && e in ListOf(lists, e.sender) ::
      e.nonce == Turn(t, out[..i], e.sender) ==> e.price <= out[i].price
  }

  /** Each choice paid the most of all good transactions whose turn it was, except those the gas check turned down. */
  ghost predicate Highest(t: Job, out: seq<Entry>) {
    forall i, e: Entry | 0 <= i < |out| && Good(t, e) && e.nonce == Turn(t, out[..i], e.sender) ::
      Skipped(t, out, i, e) || e.price <= out[i].price
  }

  /** Every sender's next good transaction was turned down. */
  ghost predicate Full(t: Job, out: seq<Entry>) {
    forall e: Entry :: Good(t, e) && e.nonce == Turn(t, out, e.sender) ==> Skipped(t, out, |out|, e)
  }

  ghost predicate Fits(t: Job, out: seq<Entry>) {
    t.limit > 0 && (forall e: Entry :: Good(t, e) ==> t.limit + e.gas < TwoTo64) ==> GasOf(out) <= t.limit
  }

  ghost predicate Chosen(t: Job, out: seq<Entry>) {
    AllGood(t, out) && Chained(out, t.account) && Highest(t, out) && Greedy(out) && Fits(t, out)
  }

  /** What the loop keeps. */
  ghost predicate Auction(t: Job, lists: Lists, next: map<Address, nat>, out: seq<Entry>) {
    && WellListed(lists) && lists.Keys <= next.Keys
    && Tracks(t, next, out) && Complete(t, lists) && PassedOver(t, lists, next, out) && NoneOutbid(t, lists, out)
    && Chosen(t, out)
  }

  lemma Appended(out: seq<Entry>, e: Entry, a: Address)
    ensures CountOf(out + [e], a) == CountOf(out, a) + (if e.sender == a then 1 else 0)
    ensures GasOf(out + [e]) == GasOf(out) + e.gas
    ensures forall i | 0 <= i <= |out| :: (out + [e])[..i] == out[..i]
  {
    assert (out + [e])[..|out|] == out;
  }

  lemma PickTracks(t: Job, next: map<Address, nat>, out: seq<Entry>, e: Entry)
    requires Tracks(t, next, out) && e.sender in next
    ensures Tracks(t, next[e.sender := next[e.sender] + 1], out + [e])
  {
    forall a <- next.Keys ensures next[e.sender := next[e.sender] + 1][a] == Turn(t, out + [e], a) {
      Appended(out, e, a);
    }
  }

  lemma PickPassesOver(t: Job, lists: Lists, next: map<Address, nat>, out: seq<Entry>, e: Entry)
    requires PassedOver(t, lists, next, out) && Ready(lists, next, e)
    ensures PassedOver(t, lists, next[e.sender := next[e.sender] + 1], out + [e])
  {
    var more := out + [e];
    forall x: Entry | Good(t, x) && x.sender !in lists && x.nonce == Turn(t, more, x.sender)
      ensures Dropped(t, lists, next[e.sender := next[e.sender] + 1], more, x)
    {
      Appended(out, e, x.sender);
      assert Dropped(t, lists, next, out, x);
      var k :| 0 <= k <= |out| && Refused(t, out, k, x) && PaidMost(lists, next, out, k, x);
      StillRefused(t, out, e, k, x);
    }
  }

  lemma PickOutbids(t: Job, lists: Lists, next: map<Address, nat>, out: seq<Entry>, e: Entry)
    requires NoneOutbid(t, lists, out) && Tracks(t, next, out) && lists.Keys <= next.Keys
    requires forall x: Entry :: Ready(lists, next, x) ==> x.price <= e.price
    ensures NoneOutbid(t, lists, out + [e])
  {
    var more := out + [e];
    forall i, x: Entry | 0 <= i < |more| && x in ListOf(lists, x.sender) && x.nonce == Turn(t, more[..i], x.sender)
      ensures x.price <= more[i].price
    {
      Appended(out, e, x.sender);
      assert more[..i] == out[..i];
      if i == |out| {
        assert out[..i] == out;
        assert Ready(lists, next, x);
      }
    }
  }

  lemma PickChains(t: Job, out: seq<Entry>, e: Entry)
    requires Chained(out, t.account) && e.nonce == Turn(t, out, e.sender)
    ensures Chained(out + [e], t.account)
  {
    var more := out + [e];
    assert out[..|out|] == out;
    forall i | 0 <= i < |more| ensures more[i].nonce == t.account(more[i].sender) + CountOf(more[..i], more[i].sender) {
      assert more[..i] == out[..i];
    }
  }

  lemma PickIsGreedy(t: Job, lists: Lists, out: seq<Entry>, e: Entry)
    requires Greedy(out) && NoneOutbid(t, lists, out)
    requires e in ListOf(lists, e.sender) && e.nonce == Turn(t, out, e.sender)
    ensures Greedy(out + [e])
  {
    var more := out + [e];
    assert out[..|out|] == out;
    forall i, j | 0 <= i < j < |more| && CountOf(more[..i], more[j].sender) == CountOf(more[..j], more[j].sender)
      ensures more[i].price >= more[j].price
    {
      assert more[..i] == out[..i] && more[..j] == out[..j];
      if j == |out| {
        assert e.nonce == Turn(t, out[..i], e.sender);
      }
    }
  }

  lemma PickIsHighest(t: Job, lists: Lists, next: map<Address, nat>, out: seq<Entry>, e: Entry)
    requires Highest(t, out) && Tracks(t, next, out) && lists.Keys <= next.Keys
    requires Complete(t, lists) && PassedOver(t, lists, next, out) && Best(lists, next, e)
    ensures Highest(t, out + [e])
  {
    var more := out + [e];
    forall i, x: Entry | 0 <= i < |more| && Good(t, x) && x.nonce == Turn(t, more[..i], x.sender)
      ensures Skipped(t, more, i, x) || x.price <= more[i].price
    {
      assert more[..i] == out[..i];
      if i < |out| {
        if Skipped(t, out, i, x) {
          var k :| 0 <= k <= i && Refused(t, out, k, x) && (k < |out| ==> out[k].price <= x.price);
          StillRefused(t, out, e, k, x);
        }
      } else {
        assert out[..i] == out;
        if x.sender in lists {
          ListedIsReady(t, lists, next, out, x);
        } else {
          assert Dropped(t, lists, next, out, x);
          var k :| 0 <= k <= |out| && Refused(t, out, k, x) && PaidMost(lists, next, out, k, x);
          StillRefused(t, out, e, k, x);
        }
      }
    }
  }

  lemma StillRefused(t: Job, out: seq<Entry>, e: Entry, k: nat, x: Entry)
    requires k <= |out| && Refused(t, out, k, x)
    ensures Refused(t, out + [e], k, x)
  {
    assert (out + [e])[..k] == out[..k];
  }

  lemma PickFits(t: Job, out: seq<Entry>, e: Entry, total: nat)
    requires Fits(t, out) && Good(t, e) && total == GasOf(out) % TwoTo64 && Accepts(total, e.gas, t.limit)
    ensures Fits(t, out + [e])
  {
    Appended(out, e, e.sender);
    if t.limit > 0 && forall x: Entry :: Good(t, x) ==> t.limit + x.gas < TwoTo64 {
      assert t.limit + e.gas < TwoTo64;
      ModBasics(GasOf(out), TwoTo64);
      AcceptsExactly(total, e.gas, t.limit);
    }
  }

  /** Choosing a best ready entry that fits. */
  lemma PickStep(t: Job, lists: Lists, next: map<Address, nat>, out: seq<Entry>, e: Entry, total: nat)
    requires Auction(t, lists, next, out) && Best(lists, next, e) && e.readable && e.convertible
    requires total == GasOf(out) % TwoTo64 && Accepts(total, e.gas, t.limit)
    ensures Auction(t, lists, next[e.sender := next[e.sender] + 1], out + [e])
  {
    assert Good(t, e) && e.nonce == Turn(t, out, e.sender);
    hide Chained, Highest, Greedy, Tracks, PassedOver, NoneOutbid, Fits, Complete, WellListed;
    PickTracks(t, next, out, e);
    PickPassesOver(t, lists, next, out, e);
    PickOutbids(t, lists, next, out, e);
    PickChains(t, out, e);
    PickIsHighest(t, lists, next, out, e);
    PickIsGreedy(t, lists, out, e);
    PickFits(t, out, e, total);
  }

  lemma {:induction false} GasGrows(out: seq<Entry>, i: nat, j: nat)
    requires i <= j <= |out|
    ensures GasOf(out[..i]) <= GasOf(out[..j])
    decreases j
  {
    if i < j {
      GasGrows(out, i, j - 1);
      assert out[..j][..j - 1] == out[..j - 1];
    }
  }

  /** What the gas check turned down does not fit, then or later. */
  lemma SkippedIsTooBig(t: Job, out: seq<Entry>, i: nat, e: Entry)
    requires i <= |out| && Skipped(t, out, i, e)
    ensures TooBig(t, out[..i], e)
  {
    var k :| 0 <= k <= i && Refused(t, out, k, e) && (k < |out| ==> out[k].price <= e.price);
    GasGrows(out, k, i);
    RefusedIsTooMuch(GasOf(out[..k]), e.gas, t.limit);
    hide Accepts, GasOf;
  }

  lemma RefusedIsTooMuch(total: nat, gas: nat, limit: nat)
    requires !Accepts(total % TwoTo64, gas, limit)
    ensures limit > 0 && total + gas > limit
  {
  }

  lemma GasAdds(out: seq<Entry>, e: Entry, total: nat)
    requires total == GasOf(out) % TwoTo64
    ensures (total + e.gas) % TwoTo64 == GasOf(out + [e]) % TwoTo64
  {
    Appended(out, e, e.sender);
    hide GasOf;
    var sum := GasOf(out) + e.gas;
    var over := (total + e.gas) / TwoTo64 + GasOf(out) / TwoTo64;
    DivModUnique(sum, TwoTo64, over, (total + e.gas) % TwoTo64);
  }

  lemma DropPassesOver(t: Job, lists: Lists, next: map<Address, nat>, out: seq<Entry>, e: Entry)
    requires PassedOver(t, lists, next, out) && Unique(t.pending) && Best(lists, next, e)
    requires e in t.pending && e.nonce == Turn(t, out, e.sender) && Refused(t, out, |out|, e)
    ensures PassedOver(t, lists - {e.sender}, next, out)
  {
    hide Refused, Turn, Unique;
    var lists' := lists - {e.sender};
    forall x: Entry | Good(t, x) && x.sender !in lists' && x.nonce == Turn(t, out, x.sender)
      ensures Dropped(t, lists', next, out, x)
    {
      if x.sender == e.sender {
        OneCandidate(t.pending, x, e);
        assert PaidMost(lists', next, out, |out|, x);
      } else {
        DroppedStays(t, lists, lists', next, out, x);
      }
    }
  }

  lemma RefusedNow(t: Job, out: seq<Entry>, e: Entry)
    requires !Accepts(GasOf(out) % TwoTo64, e.gas, t.limit)
    ensures Refused(t, out, |out|, e)
  {
    assert out[..|out|] == out;
  }

  lemma ReadyIsTurn(t: Job, lists: Lists, next: map<Address, nat>, out: seq<Entry>, e: Entry)
    requires Complete(t, lists) && Tracks(t, next, out) && Ready(lists, next, e)
    ensures Candidate(t.pending, t.kind, t.exclude, e) && e.nonce == Turn(t, out, e.sender)
  {
  }

  lemma FewerListed(t: Job, lists: Lists, out: seq<Entry>, a: Address)
    requires WellListed(lists) && Complete(t, lists) && NoneOutbid(t, lists, out)
    ensures WellListed(lists - {a}) && Complete(t, lists - {a}) && NoneOutbid(t, lists - {a}, out)
  {
  }

  /** Passing over the sender of an entry that does not fit. */
  lemma DropStep(t: Job, lists: Lists, next: map<Address, nat>, out: seq<Entry>, e: Entry)
    requires Auction(t, lists, next, out) && Unique(t.pending) && Best(lists, next, e)
    requires !Accepts(GasOf(out) % TwoTo64, e.gas, t.limit)
    ensures Auction(t, lists - {e.sender}, next, out)
  {
    assert Ready(lists, next, e);
    hide Chosen, Tracks, Refused, Turn, Unique, WellListed, Complete, NoneOutbid, PassedOver, Best, Accepts, GasOf;
    RefusedNow(t, out, e);
    ReadyIsTurn(t, lists, next, out, e);
    DropPassesOver(t, lists, next, out, e);
    FewerListed(t, lists, out, e.sender);
  }

  /** With fewer entries ready, what was passed over stays so. */
  lemma DroppedStays(t: Job, lists: Lists, less: Lists, next: map<Address, nat>, out: seq<Entry>, e: Entry)
    requires Dropped(t, lists, next, out, e)
    requires forall x: Entry :: Ready(less, next, x) ==> Ready(lists, next, x)
    ensures Dropped(t, less, next, out, e)
  {
    var k :| 0 <= k <= |out| && Refused(t, out, k, e) && PaidMost(lists, next, out, k, e);
    assert PaidMost(less, next, out, k, e);
  }

  lemma OneCandidate(pending: seq<Entry>, e: Entry, f: Entry)
    requires Unique(pending) && e in pending && f in pending && e.sender == f.sender && e.nonce == f.nonce
    ensures e == f
  {
  }

  lemma OneHash(pending: seq<Entry>, e: Entry, f: Entry)
    requires Unique(pending) && e in pending && f in pending && e.hash == f.hash
    ensures e == f
  {
  }

  /** Passing over one entry that cannot go in a block. */
  lemma FilterStep(t: Job, lists: Lists, next: map<Address, nat>, out: seq<Entry>, e: Entry, list: seq<Entry>)
    requires Auction(t, lists, next, out) && Unique(t.pending) && Ready(lists, next, e)
      && !(e.readable && e.convertible)
    requires Sorted(list) && forall x :: x in list <==> x in lists[e.sender] && x.hash != e.hash
    ensures Auction(t, lists[e.sender := list], next, out)
  {
    hide Chained, Highest, Greedy, Fits, Sorted;
    var lists' := lists[e.sender := list];
    assert Candidate(t.pending, t.kind, t.exclude, e);
    forall x: Entry | Good(t, x) && x.sender in lists' ensures x in lists'[x.sender] {
      assert x in lists[x.sender];
      if x.sender == e.sender && x.hash == e.hash {
        OneHash(t.pending, x, e);
        assert false;
      }
    }
    forall x: Entry | Good(t, x) && x.sender !in lists' && x.nonce == Turn(t, out, x.sender)
      ensures Dropped(t, lists', next, out, x)
    {
      DroppedStays(t, lists, lists', next, out, x);
    }
  }

  /* ---------- the loop ends ---------- */

  ghost function Lengths(lists: Lists): map<Address, int> {
    map a | a in lists :: |lists[a]|
  }

  ghost function Size(lists: Lists): nat {
    SumNonNegative(Lengths(lists));
    Sum(Lengths(lists))
  }

  lemma ShorterList(lists: Lists, a: Address, list: seq<Entry>)
    requires a in lists && |list| < |lists[a]|
    ensures Size(lists[a := list]) < Size(lists)
  {
    assert Lengths(lists[a := list]) == Lengths(lists)[a := |list|];
    SumUpdate(Lengths(lists), a, |list|);
  }

  lemma FewerLists(lists: Lists, a: Address)
    requires a in lists && lists[a] != []
    ensures Size(lists - {a}) < Size(lists)
  {
    assert Lengths(lists - {a}) == Lengths(lists) - {a};
    SumRemove(Lengths(lists), a);
  }

  lemma StartOk(t: Job, lists: Lists, next: map<Address, nat>)
    requires Grouped(lists, t.pending, t.kind, t.exclude) && next.Keys == lists.Keys
    requires forall a <- next.Keys :: next[a] == t.account(a)
    ensures Auction(t, lists, next, [])
  {
    forall e: Entry | Good(t, e) ensures e.sender in lists && e in lists[e.sender] {
      assert e in ListOf(lists, e.sender);
    }
    forall a <- lists.Keys, e <- lists[a] ensures Candidate(t.pending, t.kind, t.exclude, e) && e.sender == a {
      assert e in ListOf(lists, a);
    }
  }

  /**
   The chosen transactions are good, at most maxTxs and chained by nonce; each paid the most of those that could have
   been chosen in its place, and the gas limit holds. When there was room for more, every sender's next good
   transaction was turned down.
   */
  method SelectPendingTxs(t: Job, maxTxs: int) returns (out: seq<Entry>)
    requires Unique(t.pending)
    ensures |out| == 0 || |out| <= maxTxs
    ensures Chosen(t, out)
    ensures |out| < maxTxs ==> Full(t, out)
  {
    out := [];
    if maxTxs <= 0 { return; }
    var lists := GroupPendingBySender(t.pending, t.kind, t.exclude);
    var next: map<Address, nat> := map a | a in lists :: t.account(a);
    StartOk(t, lists, next);
    var totalGas := 0;
    hide Chosen, Full, Tracks, PassedOver, NoneOutbid, Complete, WellListed, Grouped, Unique, GasOf, Size, Best;
    while |out| < maxTxs
      invariant |out| <= maxTxs
      invariant Auction(t, lists, next, out)
      invariant totalGas == GasOf(out) % TwoTo64
      decreases maxTxs - |out|, Size(lists)
    {
      var best := PickBestReady(lists, next);
      if best.None? {
        Exhausted(t, lists, next, out);
        return;
      }
      var e := best.value;
      if !e.readable {
        lists := DropEntry(t, lists, next, out, e);
        continue;
      }
      if !Accepts(totalGas, e.gas, t.limit) {
        DropStep(t, lists, next, out, e);
        FewerLists(lists, e.sender);
        lists := lists - {e.sender};
        continue;
      }
      if !e.convertible {
        lists := DropEntry(t, lists, next, out, e);
        continue;
      }
      PickStep(t, lists, next, out, e, totalGas);
      GasAdds(out, e, totalGas);
      out := out + [e];
      totalGas := (totalGas + e.gas) % TwoTo64;
      next := next[e.sender := next[e.sender] + 1];
    }
  }

  method DropEntry(t: Job, lists: Lists, ghost next: map<Address, nat>, ghost out: seq<Entry>, e: Entry)
    returns (less: Lists)
    requires Auction(t, lists, next, out) && Unique(t.pending) && Ready(lists, next, e)
      && !(e.readable && e.convertible)
    ensures Auction(t, less, next, out) && Size(less) < Size(lists)
  {
    var list := FilterEntry(lists[e.sender], e.hash);
    FilterStep(t, lists, next, out, e, list);
    ShorterList(lists, e.sender, list);
    less := lists[e.sender := list];
  }

  lemma ListedIsReady(t: Job, lists: Lists, next: map<Address, nat>, out: seq<Entry>, e: Entry)
    requires Complete(t, lists) && Tracks(t, next, out) && lists.Keys <= next.Keys
    requires Good(t, e) && e.sender in lists && e.nonce == Turn(t, out, e.sender)
    ensures Ready(lists, next, e)
  {
  }

  lemma Exhausted(t: Job, lists: Lists, next: map<Address, nat>, out: seq<Entry>)
    requires Auction(t, lists, next, out) && forall e: Entry :: !Ready(lists, next, e)
    ensures Full(t, out)
  {
    forall e: Entry | Good(t, e) && e.nonce == Turn(t, out, e.sender) ensures Skipped(t, out, |out|, e) {
      if e.sender in lists {
        ListedIsReady(t, lists, next, out, e);
      } else {
        assert Dropped(t, lists, next, out, e);
        var k :| 0 <= k <= |out| && Refused(t, out, k, e) && PaidMost(lists, next, out, k, e);
      }
    }
  }

  /* ---------- the sum of gas wraps around ---------- */

  const Small := Entry(1, EvmKind, 1, 0, 10, 21_000, true, true)
  const Huge := Entry(2, EvmKind, 2, 0, 5, TwoTo64 - 1, true, true)
  const Overflowing := Job([Small, Huge], EvmKind, {}, _ => 0, 30_000_000)

  /** Whatever is chosen from these two with room for two, it is both, and their gas is over the limit. */
  lemma WrappedGasIsChosen(out: seq<Entry>)
    requires Chosen(Overflowing, out) && |out| <= 2 && (|out| < 2 ==> Full(Overflowing, out))
    ensures out == [Small, Huge] && GasOf(out) > Overflowing.limit > 0
  {
    var t := Overflowing;
    SmallIsFirst(out);
    assert out[..1] == [Small] && CountOf([Small], 1) == 1 && CountOf([Small], 2) == 0;
    if |out| == 1 {
      assert Good(t, Huge) && Huge.nonce == Turn(t, out, 2) && out[..1] == out;
      HugeIsAccepted(out);
      assert false;
    }
    assert out[1] in out && out[1].nonce == CountOf(out[..1], out[1].sender);
    assert out == [Small, Huge];
    assert out[..|out| - 1] == [Small];
  }

  lemma SmallIsFirst(out: seq<Entry>)
    requires Chosen(Overflowing, out) && (|out| < 2 ==> Full(Overflowing, out))
    ensures out != [] && out[0] == Small
  {
    SmallIsAccepted(out);
    assert Good(Overflowing, Small) && out[..0] == [] && Small.nonce == Turn(Overflowing, out[..0], 1);
    hide Skipped, Chained, Greedy, Fits;
    assert out != [];
    assert out[0] in out;
  }

  lemma SmallIsAccepted(out: seq<Entry>)
    ensures !Skipped(Overflowing, out, 0, Small)
  {
    assert out[..0] == [];
  }

  lemma HugeIsAccepted(out: seq<Entry>)
    requires out == [Small]
    ensures !Skipped(Overflowing, out, 1, Huge)
  {
    assert out[..1] == out && GasOf(out) == 21_000;
    AcceptsExactly(21_000, TwoTo64 - 1, 30_000_000);
    assert !Refused(Overflowing, out, 1, Huge);
  }
}
