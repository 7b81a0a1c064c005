/** How each operation of `_Survey` interprets the service's untyped reply:
    the shape tests, the per-operation tables of status strings, and the
    outcome each combination leads to. */
module Replies {
  import opened Values
  import opened Outcomes

  /** Status strings `list_surveys` raises on, in the order it tries them. */
  const ListSurveysMessages: seq<string> := [
    "Invalid user",
    "No surveys found",
    "Invalid session key"
  ]

  /** Status strings `list_questions` raises on; the third is spelled as the
      service sends it, "IMissmatch". */
  const ListQuestionsMessages: seq<string> := [
    "Error: Invalid survey ID",
    "Error: Invalid language",
    "Error: IMissmatch in surveyid and groupid",
    "No questions found",
    "No permission",
    "Invalid session key"
  ]

  /** Status strings `export_responses` turns into "no responses" (`None`). */
  const NoDataMessages: seq<string> := [
    "No Data, survey table does not exist.",
    "No Data, could not get max id."
  ]

  /** The `for message in error_messages: if status == message` scan: the
      first message equal to the status, if any. Equality is Python's `==`,
      so a status that is not a string never matches. */
  function FirstMatch(status: Value, messages: seq<string>): (r: Option<string>)
    ensures r.Some? <==> status.VStr? && status.s in messages
    ensures r.Some? ==> status == VStr(r.value)
  {
    if |messages| == 0 then None
    else if status == VStr(messages[0]) then Some(messages[0])
    else FirstMatch(status, messages[1..])
  }

  /** The classification `list_surveys` and `list_questions` share: a mapping
      with a listed status raises `LimeSurveyError`, any other mapping with a
      status and any list come back unchanged, and everything else fails the
      `assert response_type is list`. */
  function ClassifyListing(operation: string, messages: seq<string>, reply: Value): (r: Outcome<Value>)
    ensures r.Returned? <==>
              reply.VList? || (HasStatus(reply) && !(reply.fields["status"].VStr? && reply.fields["status"].s in messages))
    ensures r.Returned? ==> r.value == reply
    ensures r == Raised(AssertionFailure) <==> !reply.VList? && !HasStatus(reply)
    ensures forall s :: r == Raised(LimeSurveyError(operation, s)) <==>
                          HasStatus(reply) && reply.fields["status"] == VStr(s) && s in messages
    ensures r.Raised? ==> r.failure.AssertionFailure? || r.failure.LimeSurveyError?
  {
    if reply.VMap? && "status" in reply.fields then
      match FirstMatch(reply.fields["status"], messages)
      case Some(message) => Raised(LimeSurveyError(operation, message))
      case None => Returned(reply)
    else if reply.VList? then Returned(reply)
    else Raised(AssertionFailure)
  }

  /** `list_surveys`: the reply handling after the query. */
  function ListSurveysReply(reply: Value): (r: Outcome<Value>)
    ensures forall s :: r == Raised(LimeSurveyError("list_surveys", s)) <==>
                          HasStatus(reply) && reply.fields["status"] == VStr(s) && s in ListSurveysMessages
    ensures reply.VList? ==> r == Returned(reply)
    ensures (HasStatus(reply) && !(reply.fields["status"].VStr? && reply.fields["status"].s in ListSurveysMessages))
              ==> r == Returned(reply)
    ensures r == Raised(AssertionFailure) <==> !reply.VList? && !HasStatus(reply)
  {
    ClassifyListing("list_surveys", ListSurveysMessages, reply)
  }

  /** `list_questions`: the reply handling after the query. */
  function ListQuestionsReply(reply: Value): (r: Outcome<Value>)
    ensures forall s :: r == Raised(LimeSurveyError("list_questions", s)) <==>
                          HasStatus(reply) && reply.fields["status"] == VStr(s) && s in ListQuestionsMessages
    ensures reply.VList? ==> r == Returned(reply)
    ensures (HasStatus(reply) && !(reply.fields["status"].VStr? && reply.fields["status"].s in ListQuestionsMessages))
              ==> r == Returned(reply)
    ensures r == Raised(AssertionFailure) <==> !reply.VList? && !HasStatus(reply)
  {
    ClassifyListing("list_questions", ListQuestionsMessages, reply)
  }

  /** `export_responses`: a "no data" status becomes `None`, any other status
      raises `Exception("Unexpected Error")`, and every reply without a status
      (including `None` itself) comes back unchanged. */
  function ExportResponsesReply(reply: Value): (r: Outcome<Value>)
    ensures !HasStatus(reply) ==> r == Returned(reply)
    ensures HasStatus(reply) ==>
              (r == Returned(VNull) <==> reply.fields["status"].VStr? && reply.fields["status"].s in NoDataMessages)
    ensures HasStatus(reply) && r.Raised? ==> r.failure == GenericException("Unexpected Error")
    ensures HasStatus(reply) ==> r.Raised? || r == Returned(VNull)
  {
    if reply.VMap? && "status" in reply.fields then
      if FirstMatch(reply.fields["status"], NoDataMessages).Some? then Returned(VNull)
      else Raised(GenericException("Unexpected Error"))
    else Returned(reply)
  }

  /** The reply test `_checkEmailFormat` and `_checkSessionKey` share: a boolean
      reply is the answer, anything else raises with the given message. */
  function BoolReply(reply: Value, message: string): (r: Outcome<bool>)
    ensures r.Returned? <==> reply.VBool?
    ensures r.Returned? ==> r.value == reply.b
    ensures r.Raised? ==> r.failure == GenericException(message)
  {
    if reply.VBool? then Returned(reply.b) else Raised(GenericException(message))
  }

  function CheckEmailFormatReply(reply: Value): (r: Outcome<bool>)
    ensures reply == VBool(true) ==> r == Returned(true)
    ensures reply == VBool(false) ==> r == Returned(false)
    ensures !reply.VBool? ==> r == Raised(GenericException("Error: Unable to validate email"))
  {
    BoolReply(reply, "Error: Unable to validate email")
  }

  function CheckSessionKeyReply(reply: Value): (r: Outcome<bool>)
    ensures reply == VBool(true) ==> r == Returned(true)
    ensures reply == VBool(false) ==> r == Returned(false)
    ensures !reply.VBool? ==> r == Raised(GenericException("Error: Unable to validate session key"))
  {
    BoolReply(reply, "Error: Unable to validate session key")
  }

  /** A truthy non-boolean reply (a nonempty list, say) is never read as a
      validation answer. */
  lemma BoolReplyNeverCoerces(reply: Value, message: string)
    requires Truthy(reply) && !reply.VBool?
    ensures BoolReply(reply, message) != Returned(true)
    ensures CheckEmailFormatReply(reply).Raised? && CheckSessionKeyReply(reply).Raised?
  {
  }

  /** The empty list is a valid listing, never an error. */
  lemma EmptyListingIsData()
    ensures ListSurveysReply(VList([])) == Returned(VList([]))
    ensures ListQuestionsReply(VList([])) == Returned(VList([]))
  {
  }

  /** Every listed status of `list_questions` raises under its own text, and the
      differently spelled "IMismatch" is not in the table, so the service's
      reply carrying it would come back as data. */
  lemma ListQuestionsTableSpelling()
    ensures ListQuestionsReply(VMap(map["status" := VStr("Error: IMissmatch in surveyid and groupid")]))
              == Raised(LimeSurveyError("list_questions", "Error: IMissmatch in surveyid and groupid"))
    ensures var reply := VMap(map["status" := VStr("Error: IMismatch in surveyid and groupid")]);
              ListQuestionsReply(reply) == Returned(reply)
  {
    var reply := VMap(map["status" := VStr("Error: IMismatch in surveyid and groupid")]);
    assert "Error: IMismatch in surveyid and groupid" !in ListQuestionsMessages;
  }
}
