/**
 The block files: the position that ConnectBlock computes for a transaction is where the serialized block holds it.
 */
module BlockFiles {
  import opened Ledger
  import opened Blocks

  /** The low `k` bytes of `n`, lowest first. */
  function Bytes(n: nat, k: nat): (s: seq<nat>)
    ensures |s| == k
  {
    if k == 0 then [] else [n % 256] + Bytes(n / 256, k - 1)
  }

  /** WriteCompactSize. */
  function CompactBytes(n: nat): seq<nat> {
    if n < 253 then Bytes(n, 1)
    else if n <= 0xFFFF then [253] + Bytes(n, 2)
    else if n <= 0xFFFF_FFFF then [254] + Bytes(n, 4)
    else [255] + Bytes(n, 8)
  }

  datatype Header = Header(version: nat, prev: nat, root: nat, time: nat, bits: nat, nonce: nat)

  function HeaderBytes(h: Header): seq<nat> {
    Bytes(h.version, 4) + Bytes(h.prev, 32) + Bytes(h.root, 32) + Bytes(h.time, 4) + Bytes(h.bits, 4) + Bytes(h.nonce, 4)
  }

  /** The transactions one after the other. */
  function TxsBytes(txs: seq<Tx>, bytes: Tx -> seq<nat>): seq<nat> {
    if txs == [] then [] else bytes(txs[0]) + TxsBytes(txs[1..], bytes)
  }

  /** The part of a serialized block that the transactions are read from; the block signature follows it. */
  function BlockBytes(h: Header, vtx: seq<Tx>, bytes: Tx -> seq<nat>): seq<nat> {
    HeaderBytes(h) + CompactBytes(|vtx|) + TxsBytes(vtx, bytes)
  }

  lemma {:induction false} TotalSizeFront(txs: seq<Tx>)
    requires txs != []
    ensures TotalSize(txs) == txs[0].size + TotalSize(txs[1..])
  {
    var n := |txs| - 1;
    if n > 0 {
      TotalSizeFront(txs[..n]);
      assert txs[..n][1..] == txs[1..][..n - 1];
    }
  }

  lemma {:induction false} TxAt(txs: seq<Tx>, bytes: Tx -> seq<nat>, i: nat)
    requires i < |txs| && forall k :: 0 <= k < |txs| ==> |bytes(txs[k])| == txs[k].size
    ensures var from := TotalSize(txs[..i]);
      && from + txs[i].size <= |TxsBytes(txs, bytes)|
      && TxsBytes(txs, bytes)[from..from + txs[i].size] == bytes(txs[i])
  {
    if i > 0 {
      TxAt(txs[1..], bytes, i - 1);
      TotalSizeFront(txs[..i]);
      assert txs[..i][1..] == txs[1..][..i - 1];
    }
  }

  lemma FrontSize(h: Header, n: nat)
    ensures |HeaderBytes(h) + CompactBytes(n)| == 80 + CompactSize(n)
  {
  }

  lemma SliceInside(file: seq<nat>, pos: nat, front: seq<nat>, rest: seq<nat>, from: nat, size: nat)
    requires pos <= |file| && front + rest <= file[pos..] && from + size <= |rest|
    ensures var at := pos + |front| + from;
      at + size <= |file| && file[at..at + size] == rest[from..from + size]
  {
    forall k | from <= k < from + size
      ensures file[pos + |front| + k] == rest[k]
    {
      assert file[pos..][|front| + k] == (front + rest)[|front| + k];
    }
  }

  /** Reading a block file at the recorded position yields the transaction. */
  lemma PositionHoldsTx(blk: Block, h: Header, bytes: Tx -> seq<nat>, file: seq<nat>, i: nat)
    requires i < |blk.vtx| && forall k :: 0 <= k < |blk.vtx| ==> |bytes(blk.vtx[k])| == blk.vtx[k].size
    requires blk.pos <= |file| && BlockBytes(h, blk.vtx, bytes) <= file[blk.pos..]
    ensures var at, size := TxPos(blk, i).tx, blk.vtx[i].size;
      at + size <= |file| && file[at..at + size] == bytes(blk.vtx[i])
  {
    hide HeaderBytes, CompactBytes, CompactSize, TxsBytes, TotalSize;
    TxAt(blk.vtx, bytes, i);
    FrontSize(h, |blk.vtx|);
    SliceInside(file, blk.pos, HeaderBytes(h) + CompactBytes(|blk.vtx|), TxsBytes(blk.vtx, bytes),
                TotalSize(blk.vtx[..i]), blk.vtx[i].size);
  }
}
