/** Which stream/function pairs a session may use (pkg/security/policy.go). */
module SecurityPolicy {
  import opened Outcomes
  import opened Bytes

  type SFPair = (byte, byte)

  /** The lists are only ever scanned for membership, so they are sets here. */
  datatype Policy = Policy(allowedMessages: set<SFPair>, deniedMessages: set<SFPair>, readOnly: bool)

  const WRITE_MESSAGES: set<SFPair> := {(2, 15), (2, 33), (2, 35), (2, 37), (2, 41), (1, 15), (1, 17), (5, 3)}

  const READ_ONLY_POLICY: Policy := Policy({}, {}, true)

  const MONITOR_POLICY: Policy :=
    Policy({(1, 1), (1, 3), (1, 11), (1, 13), (2, 13), (2, 29), (5, 5), (5, 7)}, {}, false)

  /** No policy allows everything; otherwise read-only, then the deny list, then a nonempty allow list decide. */
  predicate IsAllowed(policy: Option<Policy>, stream: byte, function_: byte) {
    policy.None? ||
    var p, sf := policy.value, (stream, function_);
    && (p.readOnly ==> sf !in WRITE_MESSAGES)
    && sf !in p.deniedMessages
    && (p.allowedMessages != {} ==> sf in p.allowedMessages)
  }

  /** The policy lets no write message through. */
  predicate Passive(policy: Option<Policy>) {
    forall sf | sf in WRITE_MESSAGES :: !IsAllowed(policy, sf.0, sf.1)
  }

  lemma DefaultPoliciesArePassive()
    ensures Passive(Some(MONITOR_POLICY)) && Passive(Some(READ_ONLY_POLICY))
  {
  }

  /** What the two restrictive policies let through, message by message. */
  lemma PoliciesAllow(stream: byte, function_: byte)
    ensures IsAllowed(Some(MONITOR_POLICY), stream, function_) <==>
            (stream == 1 && function_ in {1, 3, 11, 13}) || (stream == 2 && function_ in {13, 29}) || (stream == 5 && function_ in {5, 7})
    ensures IsAllowed(Some(READ_ONLY_POLICY), stream, function_) <==>
            !((stream == 1 && function_ in {15, 17}) || (stream == 2 && function_ in {15, 33, 35, 37, 41}) || (stream == 5 && function_ == 3))
    ensures IsAllowed(None, stream, function_)
  {
  }

  /** A denied message stays denied whatever is allowed, and an allow list admits nothing else. */
  lemma DenialWins(p: Policy, stream: byte, function_: byte)
    ensures (stream, function_) in p.deniedMessages ==> !IsAllowed(Some(p), stream, function_)
    ensures p.allowedMessages != {} && (stream, function_) !in p.allowedMessages ==> !IsAllowed(Some(p), stream, function_)
    ensures p.readOnly && (stream, function_) in WRITE_MESSAGES ==> !IsAllowed(Some(p), stream, function_)
    ensures !p.readOnly && (stream, function_) !in p.deniedMessages && (stream, function_) in p.allowedMessages ==>
              IsAllowed(Some(p), stream, function_)
  {
  }
}
