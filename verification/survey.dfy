/** The methods of `_Survey`, each as the composition the client performs:
    build the request, hand it to the transport, interpret the reply. The
    transport is a parameter: the reply the service gives to each request. */
module Survey {
  import opened Values
  import opened Outcomes
  import opened Params
  import opened Replies
  import opened Users
  import opened Export
  import Base64
  import Utf8

  /** The remote service as seen by the client: a reply for every request. */
  type Transport = Request -> Value

  /** `list_surveys(username)`. */
  function ListSurveys(query: Transport, sessionKey: string, apiUsername: string, username: Value): (r: Outcome<Value>)
    ensures var reply := query(ListSurveysRequest(sessionKey, apiUsername, username));
            && (reply.VList? ==> r == Returned(reply))
            && (forall s :: r == Raised(LimeSurveyError("list_surveys", s)) <==>
                              HasStatus(reply) && reply.fields["status"] == VStr(s) && s in ListSurveysMessages)
            && ((HasStatus(reply) && !(reply.fields["status"].VStr? && reply.fields["status"].s in ListSurveysMessages))
                  ==> r == Returned(reply))
            && (r == Raised(AssertionFailure) <==> !reply.VList? && !HasStatus(reply))
  {
    ListSurveysReply(query(ListSurveysRequest(sessionKey, apiUsername, username)))
  }

  /** `list_questions(survey_id, group_id, language)`. */
  function ListQuestions(query: Transport, sessionKey: string, surveyId: Value, groupId: Value, language: Value)
    : (r: Outcome<Value>)
    ensures var reply := query(ListQuestionsRequest(sessionKey, surveyId, groupId, language));
            && (reply.VList? ==> r == Returned(reply))
            && (forall s :: r == Raised(LimeSurveyError("list_questions", s)) <==>
                              HasStatus(reply) && reply.fields["status"] == VStr(s) && s in ListQuestionsMessages)
            && ((HasStatus(reply) && !(reply.fields["status"].VStr? && reply.fields["status"].s in ListQuestionsMessages))
                  ==> r == Returned(reply))
            && (r == Raised(AssertionFailure) <==> !reply.VList? && !HasStatus(reply))
  {
    ListQuestionsReply(query(ListQuestionsRequest(sessionKey, surveyId, groupId, language)))
  }

  /** `export_responses(survey_id, document_type, language_code)`. */
  function ExportResponses(query: Transport, sessionKey: string, surveyId: Value, documentType: Value,
                           languageCode: Value): (r: Outcome<Value>)
    ensures var reply := query(ExportResponsesRequest(sessionKey, surveyId, documentType, languageCode));
            && (!HasStatus(reply) ==> r == Returned(reply))
            && (HasStatus(reply) ==>
                  (r == Returned(VNull) <==> reply.fields["status"].VStr? && reply.fields["status"].s in NoDataMessages))
            && (HasStatus(reply) && r != Returned(VNull) ==> r == Raised(GenericException("Unexpected Error")))
  {
    ExportResponsesReply(query(ExportResponsesRequest(sessionKey, surveyId, documentType, languageCode)))
  }

  /** `_checkEmailFormat(email)`. */
  function CheckEmailFormat(query: Transport, email: Value): (r: Outcome<bool>)
    ensures var reply := query(CheckEmailFormatRequest(email));
            && (r.Returned? <==> reply.VBool?)
            && (r.Returned? ==> r.value == reply.b)
            && (r.Raised? ==> r.failure == GenericException("Error: Unable to validate email"))
  {
    CheckEmailFormatReply(query(CheckEmailFormatRequest(email)))
  }

  /** `_checkSessionKey(sessionKey)`. */
  function CheckSessionKey(query: Transport, sessionKey: string): (r: Outcome<bool>)
    ensures var reply := query(CheckSessionKeyRequest(sessionKey));
            && (r.Returned? <==> reply.VBool?)
            && (r.Returned? ==> r.value == reply.b)
            && (r.Raised? ==> r.failure == GenericException("Error: Unable to validate session key"))
  {
    CheckSessionKeyReply(query(CheckSessionKeyRequest(sessionKey)))
  }

  /** `get_users_by_id()`: `list_users` followed by the re-keying loop. */
  function UsersById(query: Transport, sessionKey: string): (r: Outcome<Directory>)
    ensures var reply := query(ListUsersRequest(sessionKey));
            && (reply.VList? ==>
                  (r.Returned? <==> forall i :: 0 <= i < |reply.items| ==> WellFormedUser(reply.items[i])))
            && (reply.VList? && r.Returned? ==>
                  forall i :: 0 <= i < |reply.items| ==> WellFormedUser(reply.items[i]) && Uid(reply.items[i]) in r.value)
            && (reply.VList? && r.Returned? ==>
                  forall k :: k in r.value ==>
                    exists i :: LastHolder(reply.items, i, k) && r.value[k] == Sanitized(reply.items[i]))
            && (reply.VList? && r.Raised? ==>
                  exists i :: 0 <= i < |reply.items| && Entry(reply.items[i]) == Raised(r.failure)
                              && forall j :: 0 <= j < i ==> WellFormedUser(reply.items[j]))
            && (!reply.VList? ==>
                  (r == Returned(map[]) <==> (reply.VMap? && |reply.fields| == 0) || (reply.VStr? && |reply.s| == 0)))
            && (!reply.VList? && r.Raised? ==> r.failure == TypeError)
            && ((!reply.VList? && !((reply.VMap? && |reply.fields| == 0) || (reply.VStr? && |reply.s| == 0)))
                  ==> r == Raised(TypeError))
    ensures r.Returned? ==> forall k, f :: k in r.value && f in StrippedFields ==> f !in r.value[k]
  {
    var reply := query(ListUsersRequest(sessionKey));
    var r := GetUsersById(reply);
    if reply.VList? then
      BuildReturnedIff(reply.items);
      if r.Returned? then
        BuildKeys(reply.items, r.value);
        BuildLastWins(reply.items, r.value);
        BuildStripsDisplayFields(reply.items, r.value);
        r
      else
        BuildRaisedFirst(reply.items);
        r
    else r
  }

  /** `export_responses_to_file(survey_id, document_type, users_by_id,
      language_code)`: `get_survey_properties` is consulted only when a
      directory is given. */
  function ExportResponsesToFile(query: Transport, files: Files, sessionKey: string, surveyId: int,
                                 documentType: string, usersById: Option<Directory>, languageCode: Value)
    : (r: (Outcome<()>, Files))
    requires usersById.Some? ==>
               OwnerIdScalar(query(GetSurveyPropertiesRequest(sessionKey, VInt(surveyId)))) &&
               FullNamesScalar(usersById.value)
    ensures r.0.Raised? ==> r.1 == files
    ensures var reply := query(ExportResponsesRequest(sessionKey, VInt(surveyId), VStr(documentType), languageCode));
            var properties := if usersById.Some? then query(GetSurveyPropertiesRequest(sessionKey, VInt(surveyId))) else VNull;
            var e := ExportContents(surveyId, documentType, usersById, reply, properties);
            && (e.Raised? ==> r == (Raised(e.failure), files))
            && (e.Returned? ==> r.0 == Returned(()) && r.1 == files[e.value.0 := e.value.1])
    ensures var reply := query(ExportResponsesRequest(sessionKey, VInt(surveyId), VStr(documentType), languageCode));
            (HasStatus(reply) && !(reply.fields["status"].VStr? && reply.fields["status"].s in NoDataMessages))
              ==> r == (Raised(GenericException("Unexpected Error")), files)
    ensures var reply := query(ExportResponsesRequest(sessionKey, VInt(surveyId), VStr(documentType), languageCode));
            var properties := query(GetSurveyPropertiesRequest(sessionKey, VInt(surveyId)));
            (usersById.Some? && OwnerFullName(usersById.value, properties).Returned? && HasStatus(reply) &&
             reply.fields["status"].VStr? && reply.fields["status"].s in NoDataMessages)
              ==> r == (Returned(()),
                        files[FileName(surveyId, documentType, Some(OwnerFullName(usersById.value, properties).value))
                              := NoResponseText])
    ensures var reply := query(ExportResponsesRequest(sessionKey, VInt(surveyId), VStr(documentType), languageCode));
            (usersById.None? && HasStatus(reply) && reply.fields["status"].VStr? &&
             reply.fields["status"].s in NoDataMessages)
              ==> r == (Returned(()), files[FileName(surveyId, documentType, None) := NoResponseText])
    ensures var reply := query(ExportResponsesRequest(sessionKey, VInt(surveyId), VStr(documentType), languageCode));
            (usersById.None? && DecodePayload(reply).Returned?)
              ==> r == (Returned(()), files[FileName(surveyId, documentType, None) := DecodePayload(reply).value])
    ensures var reply := query(ExportResponsesRequest(sessionKey, VInt(surveyId), VStr(documentType), languageCode));
            var properties := query(GetSurveyPropertiesRequest(sessionKey, VInt(surveyId)));
            (usersById.Some? && OwnerFullName(usersById.value, properties).Returned? && DecodePayload(reply).Returned?)
              ==> r == (Returned(()),
                        files[FileName(surveyId, documentType, Some(OwnerFullName(usersById.value, properties).value))
                              := DecodePayload(reply).value])
  {
    var exportReply := query(ExportResponsesRequest(sessionKey, VInt(surveyId), VStr(documentType), languageCode));
    var properties := if usersById.Some? then query(GetSurveyPropertiesRequest(sessionKey, VInt(surveyId))) else VNull;
    Export.ExportResponsesToFile(files, surveyId, documentType, usersById, exportReply, properties)
  }

  /** A document the service returns encoded is written, without a
      directory, to `"{survey_id}.{document_type}"` as its text. */
  lemma ExportEncodedDocument(query: Transport, files: Files, sessionKey: string, surveyId: int,
                              documentType: string, languageCode: Value, text: string)
    requires query(ExportResponsesRequest(sessionKey, VInt(surveyId), VStr(documentType), languageCode))
             == VStr(Base64.Encode(Utf8.Encode(text)))
    ensures ExportResponsesToFile(query, files, sessionKey, surveyId, documentType, None, languageCode)
            == (Returned(()), files[FileName(surveyId, documentType, None) := text])
  {
    DecodePayloadRoundTrip(text);
  }
}
