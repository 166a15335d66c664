/**
 * How my_shell_send_from_ble cuts a BLE payload into UART transmit buffers,
 * and what its loop has done after k chunks: which fresh blocks hold which
 * chunks, which one the driver carries and which wait in
 * ble_tx_to_uart_fifo.
 */
module Chunking {
  import opened Common
  import opened Ownership

  /** The payload bytes one transmit buffer carries: BUF_SIZE - 1, the last byte being kept for a possible LF. */
  const CHUNK_PAYLOAD: nat := 39

  lemma ChunkPayloadLeavesRoomForLf()
    ensures CHUNK_PAYLOAD == SHELL_UART_BUF_SIZE - 1
  {
  }

  // ---------------------------------------------------------------------
  // The cutting of a BLE payload (the pos loop of my_shell_send_from_ble)
  // ---------------------------------------------------------------------

  /** True when the payload ends in CR, so that the peer expects a trailing LF. */
  predicate EndsInCr(data: seq<byte>)
  {
    |data| > 0 && data[|data| - 1] == CR
  }

  /**
   * The transmit buffers the loop fills from position pos on, in order: while
   * more than BUF_SIZE - 1 bytes remain, a buffer takes the next BUF_SIZE - 1
   * of them; the buffer that takes the rest gets an LF appended when the
   * payload ends in CR.
   */
  function Chunks(data: seq<byte>, pos: nat): seq<seq<byte>>
    requires pos <= |data|
    decreases |data| - pos
  {
    if pos == |data| then []
    else if |data| - pos > CHUNK_PAYLOAD then [data[pos..pos + CHUNK_PAYLOAD]] + Chunks(data, pos + CHUNK_PAYLOAD)
    else [data[pos..] + (if EndsInCr(data) then [LF] else [])]
  }

  /** The bytes of a series of buffers written one after the other. */
  function Concat(cs: seq<seq<byte>>): seq<byte>
  {
    if cs == [] then [] else cs[0] + Concat(cs[1..])
  }

  lemma ConcatCons(c: seq<byte>, rest: seq<seq<byte>>)
    ensures Concat([c] + rest) == c + Concat(rest)
  {
    assert ([c] + rest)[1..] == rest;
  }

  /**
   * What the UART emits for a payload is the payload itself, followed by
   * one LF when the payload ends in CR; nothing is lost, duplicated or
   * reordered by the cutting.
   */
  lemma {:induction false} ChunksConcat(data: seq<byte>, pos: nat)
    requires pos < |data|
    ensures Concat(Chunks(data, pos)) == data[pos..] + (if EndsInCr(data) then [LF] else [])
    decreases |data| - pos
  {
    var tail: seq<byte> := if EndsInCr(data) then [LF] else [];
    if |data| - pos > CHUNK_PAYLOAD {
      var c := data[pos..pos + CHUNK_PAYLOAD];
      var rest := Chunks(data, pos + CHUNK_PAYLOAD);
      ConcatCons(c, rest);
      ChunksConcat(data, pos + CHUNK_PAYLOAD);
      assert data[pos..] == c + data[pos + CHUNK_PAYLOAD..];
      assert c + (data[pos + CHUNK_PAYLOAD..] + tail) == (c + data[pos + CHUNK_PAYLOAD..]) + tail;
    } else {
      ConcatCons(data[pos..] + tail, []);
    }
  }

  /**
   * Every buffer but the last carries exactly BUF_SIZE - 1 payload bytes and
   * no LF; the last carries the remaining 1 to BUF_SIZE - 1 bytes of the
   * payload, followed by an LF exactly when the payload ends in CR. So no
   * buffer is empty, and the LF always fits in the byte kept for it.
   */
  lemma {:induction false} ChunksShape(data: seq<byte>, pos: nat)
    requires pos < |data|
    ensures var cs := Chunks(data, pos);
      && |cs| > 0
      && (forall i :: 0 <= i < |cs| - 1 ==> |cs[i]| == CHUNK_PAYLOAD)
      && var m := |data| - (pos + (|cs| - 1) * 39);
         0 < m <= CHUNK_PAYLOAD && cs[|cs| - 1] == data[|data| - m..] + (if EndsInCr(data) then [LF] else [])
    decreases |data| - pos
  {
    var cs := Chunks(data, pos);
    if |data| - pos > CHUNK_PAYLOAD {
      var rest := Chunks(data, pos + CHUNK_PAYLOAD);
      ChunksShape(data, pos + CHUNK_PAYLOAD);
      assert cs == [data[pos..pos + CHUNK_PAYLOAD]] + rest;
      assert forall i :: 1 <= i < |cs| ==> cs[i] == rest[i - 1];
      assert pos + 39 + (|rest| - 1) * 39 == pos + (|cs| - 1) * 39;
    }
  }

  /** A payload of len bytes is cut into ceil(len / (BUF_SIZE - 1)) = ceil(len / 39) buffers. */
  lemma {:induction false} ChunksCount(data: seq<byte>, pos: nat)
    requires pos <= |data|
    ensures |Chunks(data, pos)| == (|data| - pos + 38) / 39
    decreases |data| - pos
  {
    if |data| - pos > CHUNK_PAYLOAD {
      ChunksCount(data, pos + CHUNK_PAYLOAD);
    }
  }

  // ---------------------------------------------------------------------
  // What the sending loop has done after k chunks
  // ---------------------------------------------------------------------

  /** The first chunk of a payload, and the chunks after it. */
  lemma ChunksStep(data: seq<byte>, pos: nat)
    requires pos < |data|
    ensures var n := if |data| - pos > CHUNK_PAYLOAD then CHUNK_PAYLOAD else |data| - pos;
      var body := data[pos..pos + n];
      && Chunks(data, pos)[0] == (if pos + n == |data| && data[|data| - 1] == CR then body + [LF] else body)
      && Chunks(data, pos)[1..] == Chunks(data, pos + n)
  {
    if |data| - pos <= CHUNK_PAYLOAD {
      assert data[pos..pos + (|data| - pos)] == data[pos..];
    }
  }

  /** Walking one step along a suffix of a sequence. */
  lemma SuffixStep(cs: seq<seq<byte>>, k: nat, rest: seq<seq<byte>>)
    requires k <= |cs| && cs[k..] == rest && rest != []
    ensures k < |cs| && cs[k] == rest[0] && cs[k + 1..] == rest[1..]
  {
    assert cs[k..][0] == cs[k];
  }

  /**
   * The heap h after chunk i of cs is written to a fresh block with
   * identity base + i, for each of the first k chunks.
   */
  function Placed(h: map<BufId, UartBuf>, base: nat, cs: seq<seq<byte>>, k: nat): map<BufId, UartBuf>
    requires k <= |cs|
  {
    if k == 0 then h else Placed(h, base, cs, k - 1)[base + k - 1 := UartBuf(cs[k - 1])]
  }

  /** The blocks of a placement: the old ones and one fresh block per chunk. */
  lemma {:induction false} PlacedKeys(h: map<BufId, UartBuf>, base: nat, cs: seq<seq<byte>>, k: nat, b: BufId)
    requires k <= |cs|
    ensures b in Placed(h, base, cs, k) <==> b in h || base <= b < base + k
  {
    if k != 0 {
      PlacedKeys(h, base, cs, k - 1, b);
    }
  }

  /** Fresh block base + i holds chunk i. */
  lemma {:induction false} PlacedHolds(h: map<BufId, UartBuf>, base: nat, cs: seq<seq<byte>>, k: nat, i: nat)
    requires i < k <= |cs|
    ensures base + i in Placed(h, base, cs, k) && Placed(h, base, cs, k)[base + i] == UartBuf(cs[i])
  {
    if i < k - 1 {
      PlacedHolds(h, base, cs, k - 1, i);
    }
  }

  /** Blocks below base keep their contents. */
  lemma {:induction false} PlacedKeeps(h: map<BufId, UartBuf>, base: nat, cs: seq<seq<byte>>, k: nat, b: BufId)
    requires k <= |cs| && b in h && b < base
    ensures b in Placed(h, base, cs, k) && Placed(h, base, cs, k)[b] == h[b]
  {
    if k != 0 {
      PlacedKeeps(h, base, cs, k - 1, b);
    }
  }

  /** The identities base, base + 1, ..., base + n - 1, in order. */
  function Ids(base: nat, n: nat): seq<BufId>
  {
    if n == 0 then [] else Ids(base, n - 1) + [base + n - 1]
  }

  /**
   * The state after the first k chunks of cs went out, one fresh block each
   * from identity base on, starting from heap h0, ble_tx_to_uart_fifo q0 and
   * transmitter state tx0: the heap holds the chunks, the driver carries
   * chunk acceptAt when it was idle and got that far, and every other chunk
   * is queued in order.
   */
  ghost predicate Sent(h0: map<BufId, UartBuf>, q0: seq<BufId>, tx0: Option<TxSlice>, base: nat,
                       cs: seq<seq<byte>>, acceptAt: nat, k: nat,
                       heap: map<BufId, UartBuf>, queue: seq<BufId>, tx: Option<TxSlice>)
  {
    && k <= |cs|
    && heap == Placed(h0, base, cs, k)
    && (!(tx0.None? && acceptAt < k) ==> tx == tx0 && queue == q0 + Ids(base, k))
    && (tx0.None? && acceptAt < k ==>
          && tx == Some(TxSlice(base + acceptAt, 0, |cs[acceptAt]|))
          && queue == q0 + Ids(base, acceptAt) + Ids(base + acceptAt + 1, k - acceptAt - 1))
  }

  /** Sending chunk k, which the driver takes exactly when idle and k is acceptAt, extends Sent by one chunk. */
  lemma SentStep(h0: map<BufId, UartBuf>, q0: seq<BufId>, tx0: Option<TxSlice>, base: nat,
                 cs: seq<seq<byte>>, acceptAt: nat, k: nat,
                 heap: map<BufId, UartBuf>, queue: seq<BufId>, tx: Option<TxSlice>,
                 c: seq<byte>, id: BufId, accepted: bool,
                 heap': map<BufId, UartBuf>, queue': seq<BufId>, tx': Option<TxSlice>)
    requires Sent(h0, q0, tx0, base, cs, acceptAt, k, heap, queue, tx) && k < |cs|
    requires c == cs[k] && id == base + k
    requires heap' == heap[id := UartBuf(c)]
    requires accepted <==> tx.None? && k == acceptAt
    requires accepted ==> tx' == Some(TxSlice(id, 0, |c|)) && queue' == queue
    requires !accepted ==> tx' == tx && queue' == queue + [id]
    ensures Sent(h0, q0, tx0, base, cs, acceptAt, k + 1, heap', queue', tx')
  {
    if accepted {
      assert Ids(base + k + 1, 0) == [];
    } else if tx0.None? && acceptAt < k {
      var j := acceptAt;
      assert Ids(base + j + 1, k - j) == Ids(base + j + 1, k - j - 1) + [base + k];
    } else {
      assert Ids(base, k + 1) == Ids(base, k) + [base + k];
    }
  }

}
