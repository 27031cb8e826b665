/** A declaration as it is submitted, stored and handed out again in a receipt. */
module Submissions {
  import opened Bytes
  import opened Text
  import opened Json
  import opened Eip712
  import opened Outcomes

  /** `declaredAt` arrives as a number or as a string of digits. */
  datatype Moment = Number(n: nat) | Digits(text: Text)

  datatype Submitted = Submitted(
    agent: Bytes, contentHash: Bytes, inputHash: Bytes, modelId: Text, runtimeId: Text,
    processType: int, humanIntervention: int, pipelineSteps: int, declaredAt: Moment,
    nonce: Bytes, metadataHash: Bytes)

  datatype Submission = Submission(declaration: Submitted, signature: Bytes, metadata: Option<Members>)

  function BigInt(m: Moment): int {
    match m case Number(n) => n case Digits(t) => FromDecimal(t)
  }

  function ToDeclaration(s: Submitted): Declaration {
    Declaration(s.agent, s.contentHash, s.inputHash, s.modelId, s.runtimeId, s.processType, s.humanIntervention,
                s.pipelineSteps, BigInt(s.declaredAt), s.nonce, s.metadataHash)
  }

  /** What is stored: the submission with `declaredAt` as a decimal string. */
  function Stored(s: Submitted): Submitted
    requires BigInt(s.declaredAt) >= 0
  {
    s.(declaredAt := Digits(ToDecimal(BigInt(s.declaredAt))))
  }

  /** The submission that stands for a declaration, its time in digits. */
  function Written(d: Declaration): Submitted
    requires d.declaredAt >= 0
  {
    Submitted(
      d.agent, d.contentHash, d.inputHash, d.modelId, d.runtimeId, d.processType, d.humanIntervention,
      d.pipelineSteps, Digits(ToDecimal(d.declaredAt)), d.nonce, d.metadataHash)
  }

  /** Writing a declaration and reading it back loses nothing, and what is stored is the signed one, written. */
  lemma WrittenRoundTrip(d: Declaration, s: Submitted)
    requires d.declaredAt >= 0
    ensures ToDeclaration(Written(d)) == d
    ensures ToDeclaration(s) == d ==> Stored(s) == Written(d)
  {
    DecimalRoundTrip(d.declaredAt);
  }

  /** Reading the stored form back gives the declaration that was signed. */
  lemma StoredRoundTrip(s: Submitted)
    requires BigInt(s.declaredAt) >= 0
    ensures ToDeclaration(Stored(s)) == ToDeclaration(s)
  {
    DecimalRoundTrip(BigInt(s.declaredAt));
  }

  /** The shape the submission schema asks for. */
  predicate SchemaOk(s: Submission) {
    && |s.declaration.agent| == 20
    && |s.declaration.contentHash| == 32 && |s.declaration.inputHash| == 32
    && |s.declaration.nonce| == 32 && |s.declaration.metadataHash| == 32
    && (s.declaration.declaredAt.Digits? ==>
        IsNumeral(s.declaration.declaredAt.text) && |s.declaration.declaredAt.text| <= 20)
    && |s.signature| == 65
    && (s.metadata.Some? ==> ValidMembers(s.metadata.value) && FiniteMembers(s.metadata.value))
  }
}
