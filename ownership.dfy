/**
 * Who holds each k_malloc block of the UART bridge. A ghost map from live
 * blocks to their places, and the predicates and lemmas that keep every
 * container of the bridge in agreement with it.
 */
module Ownership {
  import opened Common

  /** A transmission handed to the UART driver: len bytes of buffer buf from offset on. */
  datatype TxSlice = TxSlice(buf: BufId, offset: nat, len: nat)

  /**
   * Where a live block is: in the driver's receive slots, in
   * uart_rx_to_ble_fifo, in ble_tx_to_uart_fifo, in flight on the
   * transmitter, recorded as aborted_buf, in the BLE write thread's hands,
   * in a local variable of the handler that is running, or nowhere the
   * program can reach any more.
   */
  datatype Place = RxDriver | RxFifo | TxFifo | InFlight | Aborted | BleThread | Handler | Leaked

  /** Every live block has an identity below nextId and holds at most BUF_SIZE bytes. */
  ghost predicate HeapOk(heap: map<BufId, UartBuf>, nextId: nat)
  {
    forall b :: b in heap ==> b < nextId && |heap[b].data| <= SHELL_UART_BUF_SIZE
  }

  /** Every block in s is live and at place p, and none is there twice. */
  ghost predicate Tracks(loc: map<BufId, Place>, s: seq<BufId>, p: Place)
    decreases |s|
  {
    s == [] || (s[0] in loc && loc[s[0]] == p && s[0] !in s[1..] && Tracks(loc, s[1..], p))
  }

  /** Every block of a tracked sequence is at its place. */
  lemma {:induction false} TracksHas(loc: map<BufId, Place>, s: seq<BufId>, p: Place, b: BufId)
    requires Tracks(loc, s, p) && b in s
    ensures b in loc && loc[b] == p
    decreases |s|
  {
    if s[0] != b {
      TracksHas(loc, s[1..], p, b);
    }
  }

  /** Moving a block that is not in s leaves s tracked. */
  lemma {:induction false} TracksRetag(loc: map<BufId, Place>, s: seq<BufId>, p: Place, b: BufId, q: Place)
    requires Tracks(loc, s, p) && b !in s
    ensures Tracks(loc[b := q], s, p)
    decreases |s|
  {
    if s != [] {
      TracksRetag(loc, s[1..], p, b, q);
    }
  }

  /** Freeing a block that is not in s leaves s tracked. */
  lemma {:induction false} TracksRemove(loc: map<BufId, Place>, s: seq<BufId>, p: Place, b: BufId)
    requires Tracks(loc, s, p) && b in loc && loc[b] != p
    ensures Tracks(loc - {b}, s, p)
    decreases |s|
  {
    if s != [] {
      TracksRemove(loc, s[1..], p, b);
    }
  }

  /** Moving a block that is elsewhere leaves s tracked. */
  lemma TracksUpdate(loc: map<BufId, Place>, s: seq<BufId>, p: Place, b: BufId, q: Place)
    requires Tracks(loc, s, p) && (b in loc ==> loc[b] != p)
    ensures Tracks(loc[b := q], s, p)
  {
    if b in s {
      TracksHas(loc, s, p, b);
    }
    TracksRetag(loc, s, p, b, q);
  }

  /** Taking the head off s and moving it elsewhere leaves the rest tracked. */
  lemma TracksPop(loc: map<BufId, Place>, s: seq<BufId>, p: Place, q: Place)
    requires Tracks(loc, s, p) && s != []
    ensures Tracks(loc[s[0] := q], s[1..], p)
  {
    TracksRetag(loc, s[1..], p, s[0], q);
  }

  /** Appending a block from elsewhere, which moves to p, keeps s tracked. */
  lemma {:induction false} TracksPush(loc: map<BufId, Place>, s: seq<BufId>, p: Place, b: BufId)
    requires Tracks(loc, s, p) && b in loc && loc[b] != p
    ensures Tracks(loc[b := p], s + [b], p)
    decreases |s|
  {
    var t := s + [b];
    if s != [] {
      TracksPush(loc, s[1..], p, b);
      assert t[1..] == s[1..] + [b];
      assert s[0] != b;
    }
  }

  /** The slot o holds exactly the blocks at place p: the one it names, or none. */
  ghost predicate TracksOpt(loc: map<BufId, Place>, o: Option<BufId>, p: Place)
  {
    o.Some? ==> o.value in loc && loc[o.value] == p
  }

  /**
   * The block the transmitter sends from is live: either it is in flight on
   * its own, or it is the block the aborted record keeps (a retransmission).
   */
  ghost predicate TracksTx(loc: map<BufId, Place>, tx: Option<TxSlice>, aborted: Option<BufId>)
  {
    tx.Some? ==> tx.value.buf in loc && (loc[tx.value.buf] == InFlight || aborted == Some(tx.value.buf))
  }

  lemma TracksOptUpdate(loc: map<BufId, Place>, o: Option<BufId>, p: Place, b: BufId, q: Place)
    requires TracksOpt(loc, o, p) && (b in loc ==> loc[b] != p) && q != p
    ensures TracksOpt(loc[b := q], o, p)
  {
  }

  lemma TracksOptRemove(loc: map<BufId, Place>, o: Option<BufId>, p: Place, b: BufId)
    requires TracksOpt(loc, o, p) && b in loc && loc[b] != p
    ensures TracksOpt(loc - {b}, o, p)
  {
  }

  lemma TracksTxUpdate(loc: map<BufId, Place>, tx: Option<TxSlice>, aborted: Option<BufId>, b: BufId, q: Place)
    requires TracksTx(loc, tx, aborted) && TracksOpt(loc, aborted, Aborted)
    requires b in loc ==> loc[b] != InFlight && loc[b] != Aborted
    ensures TracksTx(loc[b := q], tx, aborted)
  {
  }

  lemma TracksTxRemove(loc: map<BufId, Place>, tx: Option<TxSlice>, aborted: Option<BufId>, b: BufId)
    requires TracksTx(loc, tx, aborted) && TracksOpt(loc, aborted, Aborted)
    requires b in loc && loc[b] != InFlight && loc[b] != Aborted
    ensures TracksTx(loc - {b}, tx, aborted)
  {
  }

  /**
   * Every container agrees with loc, and loc and the heap name the same live
   * blocks: a block held by a container carries that container's place, no
   * block is held twice, and a freed block is in none. The converse, that a
   * block tagged with a container's place is held by it, is not part of this
   * invariant; the event methods state their containers and loc exactly.
   */
  ghost predicate Owned(heap: map<BufId, UartBuf>, loc: map<BufId, Place>, nextId: nat,
                        rxHeld: seq<BufId>, rxToBle: seq<BufId>, bleToUart: seq<BufId>,
                        abortedBuf: Option<BufId>, bleHeld: Option<BufId>, tx: Option<TxSlice>)
  {
    && (forall b :: b in loc <==> b in heap)
    && HeapOk(heap, nextId)
    && Tracks(loc, rxHeld, RxDriver)
    && Tracks(loc, rxToBle, RxFifo)
    && Tracks(loc, bleToUart, TxFifo)
    && TracksOpt(loc, abortedBuf, Aborted)
    && TracksOpt(loc, bleHeld, BleThread)
    && TracksTx(loc, tx, abortedBuf)
  }

  /** Every block placed in l0 is still live in l, in the same place. */
  ghost predicate KeepsPlaces(l0: map<BufId, Place>, l: map<BufId, Place>)
  {
    forall b :: b in l0 ==> b in l && l[b] == l0[b]
  }

  /** No block is queued twice in a tracked sequence. */
  lemma {:induction false} TracksDistinct(loc: map<BufId, Place>, s: seq<BufId>, p: Place)
    requires Tracks(loc, s, p)
    ensures forall i, j :: 0 <= i < j < |s| ==> s[i] != s[j]
    decreases |s|
  {
    if s != [] {
      TracksDistinct(loc, s[1..], p);
      forall i, j | 0 <= i < j < |s|
        ensures s[i] != s[j]
      {
        if i == 0 {
          assert s[j] == s[1..][j - 1];
        } else {
          assert s[i] == s[1..][i - 1] && s[j] == s[1..][j - 1];
        }
      }
    }
  }

  /**
   * What the ownership invariant promises: every block a container holds is
   * live, and no block is held by two containers at once, so that each one
   * can be freed or handed on exactly once.
   */
  lemma OwnedExclusive(heap: map<BufId, UartBuf>, loc: map<BufId, Place>, nextId: nat,
                       rxHeld: seq<BufId>, rxToBle: seq<BufId>, bleToUart: seq<BufId>,
                       abortedBuf: Option<BufId>, bleHeld: Option<BufId>, tx: Option<TxSlice>, b: BufId)
    requires Owned(heap, loc, nextId, rxHeld, rxToBle, bleToUart, abortedBuf, bleHeld, tx)
    ensures b in rxHeld || b in rxToBle || b in bleToUart || abortedBuf == Some(b) || bleHeld == Some(b) ==> b in heap
    ensures b in rxHeld ==> b !in rxToBle && b !in bleToUart && abortedBuf != Some(b) && bleHeld != Some(b)
    ensures b in rxToBle ==> b !in bleToUart && abortedBuf != Some(b) && bleHeld != Some(b)
    ensures b in bleToUart ==> abortedBuf != Some(b) && bleHeld != Some(b)
    ensures abortedBuf == Some(b) ==> bleHeld != Some(b)
    ensures tx.Some? && tx.value.buf == b ==>
      b in heap && b !in rxHeld && b !in rxToBle && b !in bleToUart && bleHeld != Some(b)
  {
    if b in rxHeld {
      TracksHas(loc, rxHeld, RxDriver, b);
    }
    if b in rxToBle {
      TracksHas(loc, rxToBle, RxFifo, b);
    }
    if b in bleToUart {
      TracksHas(loc, bleToUart, TxFifo, b);
    }
  }

  /** Between events: no block is left in a running handler's local variables. */
  ghost predicate Settled(loc: map<BufId, Place>)
  {
    forall b :: b in loc ==> loc[b] != Handler
  }

  lemma SettledUpdate(loc: map<BufId, Place>, b: BufId, q: Place)
    requires Settled(loc) && q != Handler
    ensures Settled(loc[b := q])
  {
  }

  lemma SettledRemove(loc: map<BufId, Place>, b: BufId)
    requires Settled(loc)
    ensures Settled(loc - {b})
  {
  }

  // Equalities between maps reached by different series of moves.

  lemma UpdateTwice<V>(m: map<BufId, V>, b: BufId, p: V, q: V)
    ensures m[b := p][b := q] == m[b := q]
  {
  }

  lemma UpdateRemove<V>(m: map<BufId, V>, b: BufId, p: V)
    ensures m[b := p] - {b} == m - {b}
  {
  }

  lemma FreshRemove<V>(m: map<BufId, V>, b: BufId, p: V)
    requires b !in m
    ensures m[b := p] - {b} == m
  {
  }

  lemma FreshRemoveBelow<V>(m: map<BufId, V>, a: BufId, b: BufId, p: V, q: V)
    requires a !in m && a != b
    ensures m[a := p][b := q] - {a} == m[b := q]
  {
  }

  lemma UpdateSwap<V>(m: map<BufId, V>, a: BufId, b: BufId, p: V, q: V, r: V)
    requires a != b
    ensures m[a := p][b := q][a := r] == m[a := r][b := q]
  {
  }

  lemma UpdateOtherRemove<V>(m: map<BufId, V>, t: BufId, v: BufId, p: V, q: V, r: V)
    requires t != v
    ensures m[t := p][v := q][t := r] - {v} == (m - {v})[t := r]
  {
  }

  /**
   * The places after a handler, given back block t by the driver, frees
   * block v: t is dropped without a free when it is not v.
   */
  ghost function Release(loc: map<BufId, Place>, t: BufId, v: BufId): map<BufId, Place>
  {
    if t == v then loc - {v} else (loc - {v})[t := Leaked]
  }
}
