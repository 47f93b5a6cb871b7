/** The hash-chained ledger table and its batched verifier (chain.go). SHA-256
    followed by hex encoding is an arbitrary function into digests; every theorem
    that needs collision freedom says instead which two payloads collide. */
module Chain {
  import opened Text

  function Zeros(n: nat): (s: string)
    ensures |s| == n && forall c | c in s :: c == '0'
  {
    if n == 0 then "" else Zeros(n - 1) + "0"
  }

  type Digest = s: string | |s| == 64 && forall c | c in s :: IsHexDigit(c)
    witness Zeros(64)

  const GENESIS_HASH: Digest := Zeros(64)
  const BATCH_SIZE: nat := 1000
  const ENTRY_DEBIT := "debit"
  const ENTRY_CREDIT := "credit"

  type HashFn = string -> Digest

  /** A stored row. Kind, prevHash and hash are free text: the table may have
      been edited behind the program's back. */
  datatype LedgerEntry = LedgerEntry(
    seqNo: int, transactionId: Uuid, walletId: Uuid, kind: string,
    amountNano: int, balanceAfter: int, prevHash: string, hash: string,
    ref: string, note: string)

  datatype Fault = Sound | SeqGap(expected: int, got: int) | PrevHashMismatch | HashMismatch

  datatype ChainVerifyResult =
    ChainVerifyResult(valid: bool, totalBlocks: nat, brokenAtSeq: int, reason: Fault)

  /** Seq|TransactionID|WalletID|Type|Amount|BalanceAfter|PrevHash. */
  function Payload(e: LedgerEntry): string {
    Bar(Decimal(e.seqNo), Bar(e.transactionId, Bar(e.walletId, Tail(e))))
  }

  function Tail(e: LedgerEntry): string {
    Bar(Bar(Bar(e.kind, Decimal(e.amountNano)), Decimal(e.balanceAfter)), e.prevHash)
  }

  function ComputeHash(h: HashFn, e: LedgerEntry): Digest {
    h(Payload(e))
  }

  /** The last block's number and hash, or the genesis values. */
  function LastChainEntry(t: seq<LedgerEntry>): (int, string) {
    if t == [] then (0, GENESIS_HASH) else (t[|t| - 1].seqNo, t[|t| - 1].hash)
  }

  function LinkEntry(h: HashFn, e: LedgerEntry, prevSeq: int, prevHash: string): LedgerEntry {
    var linked := e.(seqNo := prevSeq + 1, prevHash := prevHash);
    linked.(hash := ComputeHash(h, linked))
  }

  // ---------------------------------------------------------------- definition

  /** Row k is what a chain from genesis must hold there. */
  predicate GoodAt(h: HashFn, t: seq<LedgerEntry>, k: nat)
    requires k < |t|
  {
    && t[k].seqNo == k + 1
    && t[k].prevHash == (if k == 0 then GENESIS_HASH else t[k - 1].hash)
    && t[k].hash == ComputeHash(h, t[k])
  }

  predicate Accepted(h: HashFn, t: seq<LedgerEntry>) {
    forall k: nat | k < |t| :: GoodAt(h, t, k)
  }

  predicate FirstBad(h: HashFn, t: seq<LedgerEntry>, k: nat) {
    k < |t| && !GoodAt(h, t, k) && forall j: nat | j < k :: GoodAt(h, t, j)
  }

  /** Which of the three checks row k fails first. */
  function FaultAt(h: HashFn, t: seq<LedgerEntry>, k: nat): Fault
    requires k < |t|
  {
    if t[k].seqNo != k + 1 then SeqGap(k + 1, t[k].seqNo)
    else if t[k].prevHash != (if k == 0 then GENESIS_HASH else t[k - 1].hash) then PrevHashMismatch
    else if t[k].hash != ComputeHash(h, t[k]) then HashMismatch
    else Sound
  }

  // ------------------------------------------------------------------ verifier

  /** One page of the table in Seq order. */
  function Page(t: seq<LedgerEntry>, offset: nat, limit: nat): seq<LedgerEntry> {
    if offset >= |t| then []
    else if offset + limit <= |t| then t[offset..offset + limit]
    else t[offset..]
  }

  lemma PageHolds(t: seq<LedgerEntry>, offset: nat, limit: nat)
    requires offset <= |t| && limit > 0
    ensures var p := Page(t, offset, limit);
      && offset + |p| <= |t| && (p == [] ==> offset == |t|)
      && forall i | 0 <= i < |p| :: p[i] == t[offset + i]
  {}

  predicate GoodUpTo(h: HashFn, t: seq<LedgerEntry>, n: nat) {
    n <= |t| && forall j: nat | j < n :: GoodAt(h, t, j)
  }

  predicate Link(t: seq<LedgerEntry>, k: nat, prevHash: string) {
    k <= |t| && prevHash == if k == 0 then GENESIS_HASH else t[k - 1].hash
  }

  /** The report on the first row that fails a check. */
  ghost predicate Reports(h: HashFn, t: seq<LedgerEntry>, r: ChainVerifyResult) {
    if r.valid then Accepted(h, t) && r == ChainVerifyResult(true, |t|, 0, Sound)
    else exists k: nat :: FirstBad(h, t, k) && r == ChainVerifyResult(false, k + 1, t[k].seqNo, FaultAt(h, t, k))
  }

  lemma RowPasses(h: HashFn, t: seq<LedgerEntry>, k: nat, prevHash: string)
    requires k < |t| && GoodUpTo(h, t, k) && Link(t, k, prevHash)
    requires t[k].seqNo == k + 1 && t[k].prevHash == prevHash && ComputeHash(h, t[k]) == t[k].hash
    ensures GoodUpTo(h, t, k + 1) && Link(t, k + 1, t[k].hash)
  {
    assert GoodAt(h, t, k);
  }

  lemma RowFails(h: HashFn, t: seq<LedgerEntry>, k: nat)
    requires k < |t| && GoodUpTo(h, t, k) && FaultAt(h, t, k) != Sound
    ensures Reports(h, t, ChainVerifyResult(false, k + 1, t[k].seqNo, FaultAt(h, t, k))) && !Accepted(h, t)
  {
    assert !GoodAt(h, t, k);
    assert FirstBad(h, t, k);
  }

  /** Reads the table page by page, carrying the previous hash and number over
      page borders; agrees with the one-pass definition for every batch size. */
  method VerifyChain(h: HashFn, t: seq<LedgerEntry>, batchSize: nat := BATCH_SIZE)
    returns (r: ChainVerifyResult)
    requires batchSize > 0
    ensures Reports(h, t, r)
    ensures r.valid <==> Accepted(h, t)
  {
    var offset: nat, prevHash: string, prevSeq: int, total: nat := 0, GENESIS_HASH, 0, 0;
    while true
      invariant offset == total == prevSeq && GoodUpTo(h, t, total) && Link(t, total, prevHash)
      decreases |t| - offset
    {
      var batch := Page(t, offset, batchSize);
      PageHolds(t, offset, batchSize);
      if |batch| == 0 {
        break;
      }
      for i := 0 to |batch|
        invariant total == prevSeq == offset + i && GoodUpTo(h, t, total) && Link(t, total, prevHash)
      {
        var e := batch[i];
        assert e == t[total];
        ghost var k := total;
        total := total + 1;
        if e.seqNo != prevSeq + 1 {
          RowFails(h, t, k);
          return ChainVerifyResult(false, total, e.seqNo, SeqGap(prevSeq + 1, e.seqNo));
        }
        if e.prevHash != prevHash {
          RowFails(h, t, k);
          return ChainVerifyResult(false, total, e.seqNo, PrevHashMismatch);
        }
        if ComputeHash(h, e) != e.hash {
          RowFails(h, t, k);
          return ChainVerifyResult(false, total, e.seqNo, HashMismatch);
        }
        RowPasses(h, t, k, prevHash);
        prevHash := e.hash;
        prevSeq := e.seqNo;
      }
      offset := offset + |batch|;
    }
    return ChainVerifyResult(true, total, 0, Sound);
  }

  // --------------------------------------------------------- payload injective

  predicate SameContent(a: LedgerEntry, b: LedgerEntry) {
    && a.seqNo == b.seqNo && a.transactionId == b.transactionId && a.walletId == b.walletId
    && a.kind == b.kind && a.amountNano == b.amountNano && a.balanceAfter == b.balanceAfter
    && a.prevHash == b.prevHash
  }

  /** The joined text determines every hashed field, whatever the type column
      holds, as long as the previous-hash column holds no bar. */
  lemma PayloadInjective(a: LedgerEntry, b: LedgerEntry)
    requires NoBar(a.prevHash) && NoBar(b.prevHash)
    requires Payload(a) == Payload(b)
    ensures SameContent(a, b)
  {
    FieldsHaveNoBar(a);
    FieldsHaveNoBar(b);
    CutFront(a, b);
    CutBack(a, b);
    DecimalInjective(a.seqNo, b.seqNo);
    DecimalInjective(a.amountNano, b.amountNano);
    DecimalInjective(a.balanceAfter, b.balanceAfter);
  }

  lemma FieldsHaveNoBar(e: LedgerEntry)
    ensures NoBar(e.transactionId) && NoBar(e.walletId)
    ensures NoBar(Decimal(e.seqNo)) && NoBar(Decimal(e.amountNano)) && NoBar(Decimal(e.balanceAfter))
  {}

  lemma CutFront(a: LedgerEntry, b: LedgerEntry)
    requires Payload(a) == Payload(b)
    ensures Decimal(a.seqNo) == Decimal(b.seqNo)
    ensures a.transactionId == b.transactionId && a.walletId == b.walletId && Tail(a) == Tail(b)
  {
    FieldsHaveNoBar(a);
    FieldsHaveNoBar(b);
    var a1, b1 := Bar(a.walletId, Tail(a)), Bar(b.walletId, Tail(b));
    var a2, b2 := Bar(a.transactionId, a1), Bar(b.transactionId, b1);
    FirstField(Decimal(a.seqNo), a2, Decimal(b.seqNo), b2);
    FirstField(a.transactionId, a1, b.transactionId, b1);
    FirstField(a.walletId, Tail(a), b.walletId, Tail(b));
  }

  lemma CutBack(a: LedgerEntry, b: LedgerEntry)
    requires NoBar(a.prevHash) && NoBar(b.prevHash) && Tail(a) == Tail(b)
    ensures a.kind == b.kind && a.prevHash == b.prevHash
    ensures Decimal(a.amountNano) == Decimal(b.amountNano)
    ensures Decimal(a.balanceAfter) == Decimal(b.balanceAfter)
  {
    FieldsHaveNoBar(a);
    FieldsHaveNoBar(b);
    var a1, b1 := Bar(a.kind, Decimal(a.amountNano)), Bar(b.kind, Decimal(b.amountNano));
    var a2, b2 := Bar(a1, Decimal(a.balanceAfter)), Bar(b1, Decimal(b.balanceAfter));
    LastField(a2, a.prevHash, b2, b.prevHash);
    LastField(a1, Decimal(a.balanceAfter), b1, Decimal(b.balanceAfter));
    LastField(a.kind, Decimal(a.amountNano), b.kind, Decimal(b.amountNano));
  }

  /** The bar-free previous hash is needed: with a bar there, two rows that
      differ in type, amount and balance share one payload. */
  lemma PayloadAmbiguousWithBar(id: Uuid) returns (a: LedgerEntry, b: LedgerEntry)
    ensures Payload(a) == Payload(b) && a.kind != b.kind && a.amountNano != b.amountNano
  {
    a := LedgerEntry(1, id, id, "x", 1, 2, "3|4", "", "", "");
    b := LedgerEntry(1, id, id, "x|1", 2, 3, "4", "", "", "");
    assert Decimal(1) == "1" && Decimal(2) == "2" && Decimal(3) == "3";
    assert Tail(a) == "x|1|2|3|4" == Tail(b);
  }

  // ------------------------------------------------------ the tip binds history

  /** Two different hashed texts with one digest. */
  predicate Collision(h: HashFn, p: string, q: string) {
    p != q && h(p) == h(q)
  }

  ghost predicate CollisionBetween(h: HashFn, a: seq<LedgerEntry>, b: seq<LedgerEntry>) {
    exists i, j | 0 <= i < |a| && 0 <= j < |b| :: Collision(h, Payload(a[i]), Payload(b[j]))
  }

  predicate SameHistory(a: seq<LedgerEntry>, b: seq<LedgerEntry>) {
    |a| == |b| && forall i | 0 <= i < |a| :: SameContent(a[i], b[i]) && a[i].hash == b[i].hash
  }

  /** One digest at the end of two accepted chains fixes their lengths and every
      hashed field of every row, unless the two chains exhibit a collision. */
  lemma {:induction false} TipBindsHistory(h: HashFn, a: seq<LedgerEntry>, b: seq<LedgerEntry>)
    requires Accepted(h, a) && Accepted(h, b)
    requires a != [] && b != [] && a[|a| - 1].hash == b[|b| - 1].hash
    ensures SameHistory(a, b) || CollisionBetween(h, a, b)
    decreases |a|
  {
    if !CollisionBetween(h, a, b) {
      TipsAgree(h, a, b);
      var m := |a| - 1;
      if m > 0 {
        AcceptedPrefix(h, a, m);
        AcceptedPrefix(h, b, m);
        NoCollisionInPrefix(h, a, b, m);
        TipBindsHistory(h, a[..m], b[..m]);
      }
      LastRowCompletes(a, b, m);
    }
  }

  /** Equal tip digests: equal tip rows, so equal lengths and equal previous digests. */
  lemma {:induction false} TipsAgree(h: HashFn, a: seq<LedgerEntry>, b: seq<LedgerEntry>)
    requires Accepted(h, a) && Accepted(h, b) && !CollisionBetween(h, a, b)
    requires a != [] && b != [] && a[|a| - 1].hash == b[|b| - 1].hash
    ensures |a| == |b| && SameContent(a[|a| - 1], b[|b| - 1])
    ensures |a| > 1 ==> a[|a| - 2].hash == b[|b| - 2].hash
  {
    var m, n := |a| - 1, |b| - 1;
    assert GoodAt(h, a, m) && GoodAt(h, b, n);
    assert !Collision(h, Payload(a[m]), Payload(b[n]));
    PrevHashHasNoBar(h, a, m);
    PrevHashHasNoBar(h, b, n);
    PayloadInjective(a[m], b[n]);
  }

  lemma NoCollisionInPrefix(h: HashFn, a: seq<LedgerEntry>, b: seq<LedgerEntry>, m: nat)
    requires m <= |a| && m <= |b| && !CollisionBetween(h, a, b)
    ensures !CollisionBetween(h, a[..m], b[..m])
  {}

  lemma LastRowCompletes(a: seq<LedgerEntry>, b: seq<LedgerEntry>, m: nat)
    requires |a| == |b| == m + 1 && SameHistory(a[..m], b[..m])
    requires SameContent(a[m], b[m]) && a[m].hash == b[m].hash
    ensures SameHistory(a, b)
  {}

  lemma PrevHashHasNoBar(h: HashFn, t: seq<LedgerEntry>, k: nat)
    requires Accepted(h, t) && k < |t|
    ensures NoBar(t[k].prevHash)
  {
    assert GoodAt(h, t, k);
    if k > 0 {
      assert GoodAt(h, t, k - 1);
    }
  }

  /** Cutting the tail off leaves an acceptable chain: the verifier alone cannot
      see a truncation, the tip digest can. */
  lemma AcceptedPrefix(h: HashFn, t: seq<LedgerEntry>, n: nat)
    requires Accepted(h, t) && n <= |t|
    ensures Accepted(h, t[..n])
  {
    var u := t[..n];
    forall k: nat | k < n ensures GoodAt(h, u, k) {
      assert GoodAt(h, t, k);
    }
  }

  // ------------------------------------------------------- tamper localisation

  /** An edit of row content that leaves numbering and the stored hashes alone. */
  predicate ContentEdit(before: LedgerEntry, after: LedgerEntry) {
    && after.seqNo == before.seqNo && after.prevHash == before.prevHash && after.hash == before.hash
    && !SameContent(before, after)
  }

  /** An edited row is reported at exactly its own position. */
  lemma {:induction false} EditIsReportedThere(h: HashFn, t: seq<LedgerEntry>, k: nat, e: LedgerEntry)
    requires Accepted(h, t) && k < |t| && ContentEdit(t[k], e)
    ensures (FirstBad(h, t[k := e], k) && FaultAt(h, t[k := e], k) == HashMismatch)
         || Collision(h, Payload(t[k]), Payload(e))
  {
    var u := t[k := e];
    assert GoodAt(h, t, k);
    EditKeepsFront(h, t, k, e);
    PrevHashHasNoBar(h, t, k);
    if Payload(t[k]) == Payload(e) {
      PayloadInjective(t[k], e);
    }
  }

  lemma EditKeepsFront(h: HashFn, t: seq<LedgerEntry>, k: nat, e: LedgerEntry)
    requires Accepted(h, t) && k < |t|
    ensures var u := t[k := e]; forall j: nat | j < k :: GoodAt(h, u, j)
  {
    var u := t[k := e];
    forall j: nat | j < k ensures GoodAt(h, u, j) {
      assert GoodAt(h, t, j);
    }
  }

  /** When the edited row's hash is recomputed too, the next row is reported, and
      the edit passes exactly when there is no next row. */
  lemma {:induction false} RehashedEditMovesToNext(h: HashFn, t: seq<LedgerEntry>, k: nat, e: LedgerEntry)
    requires Accepted(h, t) && k < |t| && ContentEdit(t[k], e)
    requires !Collision(h, Payload(t[k]), Payload(e))
    ensures var u := t[k := e.(hash := ComputeHash(h, e))];
      && (Accepted(h, u) <==> k == |t| - 1)
      && (k < |t| - 1 ==> FirstBad(h, u, k + 1) && FaultAt(h, u, k + 1) == PrevHashMismatch)
  {
    var e' := e.(hash := ComputeHash(h, e));
    var u := t[k := e'];
    assert GoodAt(h, t, k);
    EditKeepsFront(h, t, k, e');
    assert Payload(e') == Payload(e);
    assert GoodAt(h, u, k);
    PrevHashHasNoBar(h, t, k);
    if Payload(t[k]) == Payload(e) {
      PayloadInjective(t[k], e);
    }
    if k < |t| - 1 {
      assert GoodAt(h, t, k + 1);
      assert !GoodAt(h, u, k + 1);
    }
  }
}
