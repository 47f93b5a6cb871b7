/** The vote of independent workers over one transaction (botpay/internal/consensus).
    Signatures are left out: a worker is its checks and its record table. */
module Consensus {
  import opened Text

  const SECOND: int := 1_000_000_000
  const MAX_HMAC_NANO: int := 100_000_000_000_000
  const MAX_SAFE_NANO: int := 1_000_000_000_000_000
  const DEFAULT_THRESHOLD: nat := 3

  datatype Tx = Tx(id: string, fromWallet: string, toService: string, amountNano: int)

  datatype WorkerKind = Hmac | Ed25519 | Aes | Merkle

  datatype Reason =
    | Replay | InvalidAmount | AmountOverLimit | TimestampOutOfRange
    | InvalidWallet | MissingService | CryptoFailed

  datatype Vote = Vote(approved: bool, reason: Option<Reason>)

  /** One worker's tx_records: transaction ID to the recorded verdict. */
  type Records = map<string, bool>

  const SHIPPED: seq<WorkerKind> := [Hmac, Ed25519, Aes, Merkle]

  // ------------------------------------------------------------------- workers

  /** Why this worker refuses a transaction it has not seen; the age of the
      timestamp and the outcome of the cryptography come from outside. */
  function Objection(kind: WorkerKind, tx: Tx, age: int, cryptoOk: bool): Option<Reason> {
    match kind
    case Hmac =>
      if tx.amountNano <= 0 then Some(InvalidAmount)
      else if tx.amountNano > MAX_HMAC_NANO then Some(AmountOverLimit)
      else if age > 5 * 60 * SECOND || age < -30 * SECOND then Some(TimestampOutOfRange)
      else None
    case Ed25519 =>
      if |tx.fromWallet| < 10 then Some(InvalidWallet)
      else if tx.amountNano <= 0 then Some(InvalidAmount)
      else if !cryptoOk then Some(CryptoFailed)
      else None
    case Aes =>
      if tx.toService == "" then Some(MissingService)
      else if !cryptoOk then Some(CryptoFailed)
      else None
    case Merkle =>
      if tx.amountNano <= 0 || tx.amountNano > MAX_SAFE_NANO then Some(AmountOverLimit) else None
  }

  predicate HasSeen(records: Records, txId: string) {
    txId != "" && txId in records
  }

  /** INSERT OR IGNORE on the key worker-transaction: the first record stays. */
  function SaveTxRecord(records: Records, txId: string, approved: bool): Records {
    if txId in records then records else records[txId := approved]
  }

  function WorkerVerify(kind: WorkerKind, records: Records, tx: Tx, age: int, cryptoOk: bool): (Records, Vote) {
    var reason := if HasSeen(records, tx.id) then Some(Replay) else Objection(kind, tx, age, cryptoOk);
    (SaveTxRecord(records, tx.id, reason.None?), Vote(reason.None?, reason))
  }

  class Worker {
    const kind: WorkerKind
    var records: Records

    constructor (kind: WorkerKind)
      ensures this.kind == kind && records == map[]
    {
      this.kind := kind;
      records := map[];
    }

    method Verify(tx: Tx, age: int, cryptoOk: bool) returns (vote: Vote)
      modifies this
      ensures (records, vote) == WorkerVerify(kind, old(records), tx, age, cryptoOk)
    {
      if HasSeen(records, tx.id) {
        vote := Reject(tx.id, Replay);
        assert records == SaveTxRecord(old(records), tx.id, false);
        return;
      }
      var objection := Objection(kind, tx, age, cryptoOk);
      if objection.Some? {
        vote := Reject(tx.id, objection.value);
        assert records == SaveTxRecord(old(records), tx.id, false);
        return;
      }
      records := SaveTxRecord(records, tx.id, true);
      vote := Vote(true, None);
    }

    method Reject(txId: string, reason: Reason) returns (vote: Vote)
      modifies this
      ensures !vote.approved && vote.reason == Some(reason)
      ensures txId in records && (txId !in old(records) ==> !records[txId])
      ensures forall id | id in records && id != txId :: id in old(records)
      ensures forall id | id in old(records) :: id in records && records[id] == old(records)[id]
      ensures txId != "" ==> HasSeen(records, txId)
    {
      records := SaveTxRecord(records, txId, false);
      vote := Vote(false, Some(reason));
    }
  }

  /** One call of a worker, with what it is told from outside. */
  datatype Ask = Ask(tx: Tx, age: int, cryptoOk: bool)

  function RecordsAfter(kind: WorkerKind, asks: seq<Ask>): Records {
    if asks == [] then map[]
    else
      var last := asks[|asks| - 1];
      WorkerVerify(kind, RecordsAfter(kind, asks[..|asks| - 1]), last.tx, last.age, last.cryptoOk).0
  }

  function VoteOn(kind: WorkerKind, asks: seq<Ask>, i: nat): Vote
    requires i < |asks|
  {
    WorkerVerify(kind, RecordsAfter(kind, asks[..i]), asks[i].tx, asks[i].age, asks[i].cryptoOk).1
  }

  /** A worker judges a transaction once: whatever it is asked in between, every later
      call with the ID is refused as a replay, and the first verdict stays on record,
      approval or refusal. */
  lemma {:induction false} VerdictStands(kind: WorkerKind, asks: seq<Ask>, i: nat, j: nat)
    requires i < j < |asks| && asks[i].tx.id == asks[j].tx.id != ""
    requires forall k | 0 <= k < i :: asks[k].tx.id != asks[i].tx.id
    ensures VoteOn(kind, asks, j) == Vote(false, Some(Replay))
    ensures asks[i].tx.id in RecordsAfter(kind, asks[..j])
    ensures RecordsAfter(kind, asks[..j])[asks[i].tx.id] == VoteOn(kind, asks, i).approved
    decreases j
  {
    NotSeenBefore(kind, asks[..i], asks[i].tx.id);
    assert asks[..j][..i] == asks[..i];
    RecordStays(kind, asks[..j], i, asks[i].tx.id);
    assert VoteOn(kind, asks[..j], i) == VoteOn(kind, asks, i);
  }

  lemma {:induction false} NotSeenBefore(kind: WorkerKind, asks: seq<Ask>, id: string)
    requires forall k | 0 <= k < |asks| :: asks[k].tx.id != id
    ensures id !in RecordsAfter(kind, asks)
    decreases |asks|
  {
    if asks != [] {
      NotSeenBefore(kind, asks[..|asks| - 1], id);
    }
  }

  lemma {:induction false} RecordStays(kind: WorkerKind, asks: seq<Ask>, i: nat, id: string)
    requires i < |asks| && asks[i].tx.id == id && id !in RecordsAfter(kind, asks[..i])
    ensures id in RecordsAfter(kind, asks) && RecordsAfter(kind, asks)[id] == VoteOn(kind, asks, i).approved
    decreases |asks|
  {
    var n := |asks| - 1;
    if i < n {
      assert asks[..n][..i] == asks[..i];
      RecordStays(kind, asks[..n], i, id);
    } else {
      assert asks[..n] == asks[..i];
    }
  }

  // -------------------------------------------------------------------- engine

  /** One Engine.Verify: the votes its workers have put on the channel, which of
      them the loop has taken, and how often it took the timeout instead. */
  datatype Call = Call(tx: Tx, votes: map<nat, bool>, collected: set<nat>, timeouts: nat)

  function YesSet(c: Call): set<nat> {
    set w | w in c.collected && w in c.votes && c.votes[w]
  }

  datatype ConsensusResult = ConsensusResult(approved: bool, yesCount: nat, noCount: nat)

  /** The verdict on the collected votes: a timeout is a "no", and without workers
      nothing is approved. */
  function Verdict(c: Call, threshold: int, workers: nat): ConsensusResult {
    var yes := |YesSet(c)|;
    ConsensusResult(workers > 0 && yes >= threshold, yes, |c.collected - YesSet(c)| + c.timeouts)
  }

  datatype WorkerStats = WorkerStats(total: nat, approved: nat, rejected: nat)

  function Counted(s: WorkerStats, approved: bool): WorkerStats {
    if approved then WorkerStats(s.total + 1, s.approved + 1, s.rejected)
    else WorkerStats(s.total + 1, s.approved, s.rejected + 1)
  }

  /** What one round of the collecting loop takes: a worker's vote or the timeout. */
  datatype Pick = FromWorker(w: nat) | Deadline

  predicate Arrivals(votes: map<nat, bool>, picks: seq<Pick>) {
    && (forall i | 0 <= i < |picks| && picks[i].FromWorker? :: picks[i].w in votes)
    && (forall i, j | 0 <= i < j < |picks| && picks[i].FromWorker? :: picks[i] != picks[j])
  }

  function Taken(picks: seq<Pick>): set<nat> {
    set i | 0 <= i < |picks| && picks[i].FromWorker? :: picks[i].w
  }

  function Deadlines(picks: seq<Pick>): nat {
    if picks == [] then 0
    else Deadlines(picks[..|picks| - 1]) + if picks[|picks| - 1].Deadline? then 1 else 0
  }

  function Collected(tx: Tx, votes: map<nat, bool>, picks: seq<Pick>): Call {
    Call(tx, votes, Taken(picks), Deadlines(picks))
  }

  /** The workers that were picked and whose vote is an approval. */
  function Approvers(votes: map<nat, bool>, picks: seq<Pick>): set<nat> {
    set i | 0 <= i < |picks| && picks[i].FromWorker? && picks[i].w in votes && votes[picks[i].w] :: picks[i].w
  }

  lemma ApproversAreYes(tx: Tx, votes: map<nat, bool>, picks: seq<Pick>)
    ensures YesSet(Collected(tx, votes, picks)) == Approvers(votes, picks)
  {
    var c := Collected(tx, votes, picks);
    forall w
      ensures w in YesSet(c) <==> w in Approvers(votes, picks)
    {}
  }

  function Tally(stats: map<nat, WorkerStats>, votes: map<nat, bool>, picks: seq<Pick>): map<nat, WorkerStats>
    requires Arrivals(votes, picks)
  {
    if picks == [] then stats
    else Credited(Tally(stats, votes, picks[..|picks| - 1]), votes, picks[|picks| - 1])
  }

  function Credited(stats: map<nat, WorkerStats>, votes: map<nat, bool>, pick: Pick): map<nat, WorkerStats>
    requires pick.FromWorker? ==> pick.w in votes
  {
    if pick.FromWorker? && pick.w in stats then stats[pick.w := Counted(stats[pick.w], votes[pick.w])]
    else stats
  }

  function NoStats(workers: nat): map<nat, WorkerStats> {
    if workers == 0 then map[] else NoStats(workers - 1)[workers - 1 := WorkerStats(0, 0, 0)]
  }

  class Engine {
    const threshold: int
    const workers: nat
    var stats: map<nat, WorkerStats>

    /** A zero threshold means the default of three. */
    constructor (threshold: int, workers: nat)
      ensures this.threshold == (if threshold == 0 then DEFAULT_THRESHOLD else threshold)
      ensures this.workers == workers
      ensures stats == NoStats(workers)
    {
      this.threshold := if threshold == 0 then DEFAULT_THRESHOLD else threshold;
      this.workers := workers;
      stats := NoStats(workers);
    }

    /** The collecting loop, one pick per worker, in whatever order they come. */
    method Verify(tx: Tx, votes: map<nat, bool>, picks: seq<Pick>) returns (r: ConsensusResult)
      requires |picks| == workers && Arrivals(votes, picks)
      modifies this
      ensures r == Verdict(Collected(tx, votes, picks), threshold, workers)
      ensures r.approved <==> workers > 0 && |Approvers(votes, picks)| >= threshold
      ensures r.yesCount == |Approvers(votes, picks)|
      ensures r.yesCount + r.noCount == workers
      ensures stats == Tally(old(stats), votes, picks)
    {
      ApproversAreYes(tx, votes, picks);
      if workers == 0 {
        CountsAreVerdict(tx, votes, picks);
        return ConsensusResult(false, 0, 0);
      }
      var yes: nat, no: nat := 0, 0;
      for i := 0 to workers
        invariant Arrivals(votes, picks[..i])
        invariant yes == CountYes(votes, picks[..i]) && yes + no == i
        invariant stats == Tally(old(stats), votes, picks[..i])
      {
        LoopStep(old(stats), votes, picks, i);
        match picks[i] {
          case FromWorker(w) =>
            if votes[w] {
              yes := yes + 1;
            } else {
              no := no + 1;
            }
            stats := Credited(stats, votes, picks[i]);
          case Deadline =>
            no := no + 1;
        }
      }
      assert picks[..workers] == picks;
      CountsAreVerdict(tx, votes, picks);
      r := ConsensusResult(yes >= threshold, yes, no);
    }
  }

  function CountYes(votes: map<nat, bool>, picks: seq<Pick>): nat
    requires Arrivals(votes, picks)
  {
    if picks == [] then 0
    else CountYes(votes, picks[..|picks| - 1]) + if IsYes(votes, picks[|picks| - 1]) then 1 else 0
  }

  predicate IsYes(votes: map<nat, bool>, pick: Pick)
    requires pick.FromWorker? ==> pick.w in votes
  {
    pick.FromWorker? && votes[pick.w]
  }

  /** Of `picks` rounds `yes` approved: the sizes the verdict speaks of, distinct workers
      that approved, and the others together with the timeouts. */
  predicate CountsAgree(c: Call, yes: nat, picks: nat) {
    yes == |YesSet(c)| && picks - yes == |c.collected - YesSet(c)| + c.timeouts
  }

  /** The loop's two counters are those sizes. */
  lemma {:induction false} CountsAreVerdict(tx: Tx, votes: map<nat, bool>, picks: seq<Pick>)
    requires Arrivals(votes, picks)
    ensures CountsAgree(Collected(tx, votes, picks), CountYes(votes, picks), |picks|)
  {
    if picks == [] {
      assert YesSet(Collected(tx, votes, picks)) == {};
    } else {
      var i := |picks| - 1;
      assert picks[..i + 1] == picks;
      CountsAreVerdict(tx, votes, picks[..i]);
      NextTaken(tx, votes, picks, i);
      CountNext(Collected(tx, votes, picks[..i]), CountYes(votes, picks[..i]), i, picks[i]);
    }
  }

  function WithPick(c: Call, pick: Pick): Call {
    if pick.FromWorker? then c.(collected := c.collected + {pick.w}) else c.(timeouts := c.timeouts + 1)
  }

  lemma CountNext(c: Call, yes: nat, n: nat, pick: Pick)
    requires CountsAgree(c, yes, n)
    requires pick.FromWorker? ==> pick.w in c.votes && pick.w !in c.collected
    ensures CountsAgree(WithPick(c, pick), yes + if IsYes(c.votes, pick) then 1 else 0, n + 1)
  {
    if pick.FromWorker? {
      CountOne(c, pick.w);
    } else {
      assert YesSet(WithPick(c, pick)) == YesSet(c);
    }
  }

  lemma NextTaken(tx: Tx, votes: map<nat, bool>, picks: seq<Pick>, i: nat)
    requires i < |picks| && Arrivals(votes, picks)
    ensures var c := Collected(tx, votes, picks[..i]);
      && (picks[i].FromWorker? ==> picks[i].w !in c.collected)
      && Collected(tx, votes, picks[..i + 1]) == WithPick(c, picks[i])
  {
    TakeOne(votes, picks, i);
    assert picks[..i + 1][..i] == picks[..i];
  }

  lemma LoopStep(stats: map<nat, WorkerStats>, votes: map<nat, bool>, picks: seq<Pick>, i: nat)
    requires i < |picks| && Arrivals(votes, picks)
    ensures Arrivals(votes, picks[..i]) && Arrivals(votes, picks[..i + 1])
    ensures Tally(stats, votes, picks[..i + 1]) == Credited(Tally(stats, votes, picks[..i]), votes, picks[i])
    ensures CountYes(votes, picks[..i + 1]) == CountYes(votes, picks[..i]) + if IsYes(votes, picks[i]) then 1 else 0
  {
    assert picks[..i + 1][..i] == picks[..i];
  }

  /** One more vote taken raises exactly one of the two counts. */
  lemma CountOne(c: Call, w: nat)
    requires w in c.votes && w !in c.collected
    ensures var c' := c.(collected := c.collected + {w});
      && |YesSet(c')| == |YesSet(c)| + (if c.votes[w] then 1 else 0)
      && |c'.collected - YesSet(c')| == |c.collected - YesSet(c)| + (if c.votes[w] then 0 else 1)
  {
    var c' := c.(collected := c.collected + {w});
    if c.votes[w] {
      assert YesSet(c') == YesSet(c) + {w};
      assert c'.collected - YesSet(c') == c.collected - YesSet(c);
    } else {
      assert YesSet(c') == YesSet(c);
      assert c'.collected - YesSet(c') == (c.collected - YesSet(c)) + {w};
    }
  }

  /** Pick i adds its worker, which was not taken before, or adds nobody. */
  lemma TakeOne(votes: map<nat, bool>, picks: seq<Pick>, i: nat)
    requires i < |picks| && Arrivals(votes, picks)
    ensures picks[i].Deadline? ==> Taken(picks[..i + 1]) == Taken(picks[..i])
    ensures picks[i].FromWorker? ==>
      picks[i].w !in Taken(picks[..i]) && Taken(picks[..i + 1]) == Taken(picks[..i]) + {picks[i].w}
  {}

  // --------------------------------------------------------------------- guard

  datatype GuardError = RejectedByConsensus(yes: nat) | NotUnanimous(no: nat)

  function DeductTx(id: string, telegramId: int, amountNano: int, serviceId: string): Tx {
    Tx(id, "tg-" + Decimal(telegramId), serviceId, amountNano)
  }

  function WithdrawTx(id: string, telegramId: int, amountNano: int, toAddress: string): Tx {
    Tx(id, "tg-" + Decimal(telegramId) + "-withdraw", toAddress, amountNano)
  }

  function DepositTx(telegramId: int, amountNano: int, txHash: string): Tx {
    Tx("deposit-" + txHash, txHash, "wallet-tg-" + Decimal(telegramId), amountNano)
  }

  function CheckDeduct(r: ConsensusResult): Option<GuardError> {
    if r.approved then None else Some(RejectedByConsensus(r.yesCount))
  }

  /** A withdrawal needs the quorum and no vote against. */
  function CheckWithdraw(r: ConsensusResult): Option<GuardError> {
    if !r.approved then Some(RejectedByConsensus(r.yesCount))
    else if r.noCount > 0 then Some(NotUnanimous(r.noCount))
    else None
  }

  /** A deposit without a chain hash is let through unasked. */
  function CheckDeposit(txHash: string, r: ConsensusResult): Option<GuardError> {
    if txHash == "" then None else CheckDeduct(r)
  }
}
