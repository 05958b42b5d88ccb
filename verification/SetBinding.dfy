/** Receipt set-binding (`evaluate_receipt_set_binding` of `concordia/attestation.py`). */
module SetBinding {
  import opened Wrappers
  import opened Unicode
  import opened Numbers
  import opened PythonValues
  import opened Hashing
  import opened Message
  import opened AttestationVersion

  const CONCORDIA_ATTESTATION: Text := Lit("concordia_attestation")
  const CHAIN_HEAD: Text := Lit("chain_head")
  const MESSAGE_COUNT: Text := Lit("message_count")

  datatype BindingState = Bound | FieldsPresentUnverified | LegacySetUnbound | Error

  predicate LowerHex(c: CodePoint) {
    '0' as int <= c <= '9' as int || 'a' as int <= c <= 'f' as int
  }

  /** `^sha256:[a-f0-9]{64}\Z` */
  predicate IsSha256Text(t: Text) {
    SHA256_PREFIX <= t && |t| == 71 && forall i :: 7 <= i < 71 ==> LowerHex(t[i])
  }

  function ChainHead(att: seq<Member>): Option<Text> {
    match Get(att, CHAIN_HEAD)
    case Some(Str(t)) => if IsSha256Text(t) then Some(t) else None
    case _ => None
  }

  function MessageCount(att: seq<Member>): Option<nat> {
    match Get(att, MESSAGE_COUNT)
    case Some(Num(Int(v))) => if v >= 1 then Some(v) else None
    case _ => None
  }

  /**
   `evaluate_receipt_set_binding`, its error list reduced to whether it is empty. A final
   message that cannot be hashed makes the caller report an error.
   */
  function Evaluate(hash: MessageHash, att: seq<Member>, transcript: Option<seq<Envelope>>): BindingState {
    match Parse(Get(att, CONCORDIA_ATTESTATION))
    case None => Error
    case Some(version) =>
      if ExceedsImplemented(version) then Error
      else if BelowFloor(version, 0, 3) then LegacySetUnbound
      else if ChainHead(att).None? || MessageCount(att).None? then Error
      else if transcript.None? then FieldsPresentUnverified
      else if transcript.value == [] then Error
      else if hash(transcript.value[|transcript.value| - 1]) != ChainHead(att) then Error
      else if MessageCount(att).value != |transcript.value| then Error
      else Bound
  }

  /**
   A receipt pins its transcript: two valid message chains that both bind to receipts with
   the same head and count are one transcript, or two hashed texts collide. Validity of
   the chains is a hypothesis because set-binding itself does not check it.
   */
  lemma ReceiptPinsTranscript(h: Hash, a1: seq<Member>, a2: seq<Member>, xs: seq<Envelope>, ys: seq<Envelope>)
    returns (a: Text, b: Text)
    requires Evaluate(ComputeHash(h), a1, Some(xs)) == Bound && Evaluate(ComputeHash(h), a2, Some(ys)) == Bound
    requires ChainHead(a1) == ChainHead(a2) && MessageCount(a1) == MessageCount(a2)
    requires ChainValid(ComputeHash(h), xs) && ChainValid(ComputeHash(h), ys)
    requires PythonMessages(xs) && PythonMessages(ys)
    ensures SameTranscript(xs, ys) || CollisionIn(h, BothTexts(MessageText, xs, ys), a, b)
  {
    a, b := HeadAndCountPinTranscript(h, xs, ys);
  }
}
