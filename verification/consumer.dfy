/** internal/queue/consumer.go: the audit worker. json.Unmarshal is an
    oracle from a message body to an audit log, and each sink write
    (AuditRepository.Create) succeeds or fails as `writeOk` says for the
    delivery's position. */
module Consumer {
  import opened Results
  import opened Entity

  const QueueName := "audit_queue"
  const RegisterFailed := "Gagal register consumer: "

  datatype Delivery = Delivery(body: seq<bv8>)

  type Decoder = seq<bv8> -> Option<AuditLog>
  type WriteOutcome = nat -> bool

  /** What StartListening leads to: the process exits, or the worker runs. */
  datatype ListenOutcome = Fatal(message: string) | Listening

  /** The logs the worker hands to the sink for the first `n` deliveries:
      one per decodable message, in delivery order. */
  function Attempted(msgs: seq<Delivery>, decode: Decoder, n: nat): (logs: seq<AuditLog>)
    requires n <= |msgs|
    ensures |logs| <= n
  {
    if n == 0 then []
    else
      Attempted(msgs, decode, n - 1)
      + (match decode(msgs[n - 1].body) case None => [] case Some(l) => [l])
  }

  /** The logs the sink keeps for the first `n` deliveries: those decoded
      and written successfully, in delivery order. */
  function Persisted(msgs: seq<Delivery>, decode: Decoder, writeOk: WriteOutcome, n: nat): (logs: seq<AuditLog>)
    requires n <= |msgs|
    ensures |logs| <= |Attempted(msgs, decode, n)|
  {
    if n == 0 then []
    else
      Persisted(msgs, decode, writeOk, n - 1)
      + (match decode(msgs[n - 1].body) case Some(l) => if writeOk(n - 1) then [l] else [] case None => [])
  }

  /** Everything the sink keeps was handed to it: a kept log is one of the
      attempted ones, and so the decoding of some delivered message. */
  lemma {:induction false} PersistedWereAttempted(msgs: seq<Delivery>, decode: Decoder, writeOk: WriteOutcome, n: nat)
    requires n <= |msgs|
    ensures forall l :: l in Persisted(msgs, decode, writeOk, n) ==> l in Attempted(msgs, decode, n)
  {
    if n > 0 {
      PersistedWereAttempted(msgs, decode, writeOk, n - 1);
    }
  }

  /** No error stops the worker: a decodable message whose own write succeeds
      is kept, whatever failed before or after it. */
  lemma {:induction false} WrittenMessageKept(msgs: seq<Delivery>, decode: Decoder, writeOk: WriteOutcome, n: nat, k: nat)
    requires k < n <= |msgs|
    requires decode(msgs[k].body).Some? && writeOk(k)
    ensures decode(msgs[k].body).value in Persisted(msgs, decode, writeOk, n)
  {
    if k < n - 1 {
      WrittenMessageKept(msgs, decode, writeOk, n - 1, k);
    }
  }

  /** When every write succeeds, the sink keeps exactly what was attempted. */
  lemma {:induction false} AllWritesSucceed(msgs: seq<Delivery>, decode: Decoder, writeOk: WriteOutcome, n: nat)
    requires n <= |msgs|
    requires forall i :: 0 <= i < n ==> writeOk(i)
    ensures Persisted(msgs, decode, writeOk, n) == Attempted(msgs, decode, n)
  {
    if n > 0 {
      AllWritesSucceed(msgs, decode, writeOk, n - 1);
    }
  }

  /** When every message decodes, each is handed to the sink exactly once,
      in delivery order. */
  lemma {:induction false} AttemptedInOrder(msgs: seq<Delivery>, decode: Decoder, n: nat)
    requires n <= |msgs|
    requires forall i :: 0 <= i < n ==> decode(msgs[i].body).Some?
    ensures |Attempted(msgs, decode, n)| == n
    ensures forall i :: 0 <= i < n ==> Attempted(msgs, decode, n)[i] == decode(msgs[i].body).value
  {
    if n > 0 {
      AttemptedInOrder(msgs, decode, n - 1);
    }
  }

  /** An undecodable message adds nothing, and the worker carries on. */
  lemma SkippedMessage(msgs: seq<Delivery>, decode: Decoder, writeOk: WriteOutcome, k: nat)
    requires k < |msgs| && decode(msgs[k].body).None?
    ensures Attempted(msgs, decode, k + 1) == Attempted(msgs, decode, k)
    ensures Persisted(msgs, decode, writeOk, k + 1) == Persisted(msgs, decode, writeOk, k)
  {
  }

  /** The name the consumer subscribes to: QueueDeclare's error is ignored,
      so a failed declare leaves the zero Queue and its empty name (line 22). */
  function ConsumeQueue(declareErr: Option<string>): (name: string)
    ensures declareErr.None? <==> name == QueueName
  {
    if declareErr.None? then QueueName else ""
  }

  class AuditConsumer {
    /** The `activity_logs` collection the AuditRepository writes to. */
    var sink: seq<AuditLog>
    /** Every log handed to AuditRepository.Create, in order. */
    var writes: seq<AuditLog>
    /** Deliveries acknowledged so far; auto-ack acknowledges each on delivery. */
    var acked: nat

    constructor ()
      ensures sink == [] && writes == [] && acked == 0
    {
      sink := [];
      writes := [];
      acked := 0;
    }

    /** The worker loop `for d := range msgs` (lines 39-53), run over the
        deliveries the broker makes. */
    method Drain(msgs: seq<Delivery>, decode: Decoder, writeOk: WriteOutcome)
      modifies this
      ensures acked == old(acked) + |msgs|
      ensures writes == old(writes) + Attempted(msgs, decode, |msgs|)
      ensures sink == old(sink) + Persisted(msgs, decode, writeOk, |msgs|)
    {
      var i := 0;
      while i < |msgs|
        invariant 0 <= i <= |msgs|
        invariant acked == old(acked) + i
        invariant writes == old(writes) + Attempted(msgs, decode, i)
        invariant sink == old(sink) + Persisted(msgs, decode, writeOk, i)
      {
        acked := acked + 1;
        var decoded := decode(msgs[i].body);
        if decoded.Some? {
          var log := decoded.value;
          writes := writes + [log];
          if writeOk(i) {
            sink := sink + [log];
          }
        }
        i := i + 1;
      }
    }

    /** StartListening (lines 21-55): a failed consume registration is fatal
        and nothing is consumed; otherwise the worker drains the deliveries.
        `consumeErr` gives the broker's answer to Consume on a queue name. */
    method StartListening(declareErr: Option<string>, consumeErr: string -> Option<string>,
                          msgs: seq<Delivery>, decode: Decoder, writeOk: WriteOutcome)
      returns (outcome: ListenOutcome)
      modifies this
      ensures consumeErr(ConsumeQueue(declareErr)).Some? ==>
        && outcome == Fatal(RegisterFailed + consumeErr(ConsumeQueue(declareErr)).value)
        && sink == old(sink) && writes == old(writes) && acked == old(acked)
      ensures consumeErr(ConsumeQueue(declareErr)).None? ==>
        && outcome == Listening
        && acked == old(acked) + |msgs|
        && writes == old(writes) + Attempted(msgs, decode, |msgs|)
        && sink == old(sink) + Persisted(msgs, decode, writeOk, |msgs|)
    {
      var err := consumeErr(ConsumeQueue(declareErr));
      if err.Some? {
        return Fatal(RegisterFailed + err.value);
      }
      Drain(msgs, decode, writeOk);
      outcome := Listening;
    }
  }
}
