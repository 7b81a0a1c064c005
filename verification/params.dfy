/** The requests `_Survey` sends: each operation's parameters as an
    `OrderedDict` of (name, value) pairs, the session key first for
    session-scoped calls and the other names in a fixed order. */
module Params {
  import opened Values

  type Param = (string, Value)

  /** A remote call: the method name and its ordered parameters. */
  datatype Request = Request(operation: string, params: seq<Param>)

  function Names(ps: seq<Param>): (ns: seq<string>)
    ensures |ns| == |ps|
    ensures forall i :: 0 <= i < |ps| ==> ns[i] == ps[i].0
  {
    seq(|ps|, i requires 0 <= i < |ps| => ps[i].0)
  }

  predicate Distinct(ns: seq<string>)
  {
    forall i, j :: 0 <= i < j < |ns| ==> ns[i] != ns[j]
  }

  /** Position of the first occurrence of `n`, if any. */
  function IndexOf(ns: seq<string>, n: string): (r: Option<nat>)
    ensures r.Some? ==> r.value < |ns| && ns[r.value] == n
    ensures r.Some? ==> forall k :: 0 <= k < r.value ==> ns[k] != n
    ensures r.None? <==> n !in ns
  {
    if |ns| == 0 then None
    else if ns[0] == n then Some(0)
    else match IndexOf(ns[1..], n)
      case None => None
      case Some(k) => Some(k + 1)
  }

  lemma {:induction false} IndexOfAppend(ns: seq<string>, x: string, n: string)
    ensures IndexOf(ns + [x], n) ==
              if n in ns then IndexOf(ns, n) else if n == x then Some(|ns|) else None
    decreases |ns|
  {
    if |ns| > 0 {
      assert (ns + [x])[1..] == ns[1..] + [x];
      IndexOfAppend(ns[1..], x, n);
    }
  }

  /** `d[n]` on an ordered dict, `None` when the name is absent. */
  function Lookup(d: seq<Param>, n: string): Option<Value>
  {
    match IndexOf(Names(d), n)
    case None => None
    case Some(k) => Some(d[k].1)
  }

  /** `OrderedDict.__setitem__`: an existing name keeps its position and takes
      the new value; a new name is appended at the end. */
  function Put(d: seq<Param>, p: Param): (r: seq<Param>)
    requires Distinct(Names(d))
    ensures Distinct(Names(r))
    ensures forall n :: n in Names(r) <==> n in Names(d) || n == p.0
    ensures forall n :: Lookup(r, n) == if n == p.0 then Some(p.1) else Lookup(d, n)
  {
    match IndexOf(Names(d), p.0)
    case Some(k) =>
      var r := d[k := p];
      assert Names(r) == Names(d);
      r
    case None =>
      var r := d + [p];
      assert Names(r) == Names(d) + [p.0];
      forall n ensures Lookup(r, n) == if n == p.0 then Some(p.1) else Lookup(d, n) {
        IndexOfAppend(Names(d), p.0, n);
      }
      r
  }

  /** The value the last pair named `n` gives it. */
  function LastValue(pairs: seq<Param>, n: string): Option<Value>
  {
    if |pairs| == 0 then None
    else if pairs[|pairs| - 1].0 == n then Some(pairs[|pairs| - 1].1)
    else LastValue(pairs[..|pairs| - 1], n)
  }

  /** `OrderedDict(pairs)`: names in order of first appearance, each bound to
      the value of its last pair. */
  function OrderedDict(pairs: seq<Param>): (d: seq<Param>)
    ensures Distinct(Names(d))
    ensures forall n :: n in Names(d) <==> n in Names(pairs)
    ensures forall n :: Lookup(d, n) == LastValue(pairs, n)
  {
    if |pairs| == 0 then []
    else
      var init := pairs[..|pairs| - 1];
      assert forall n :: n in Names(pairs) <==> n in Names(init) || n == pairs[|pairs| - 1].0 by {
        assert Names(pairs) == Names(init) + [pairs[|pairs| - 1].0];
      }
      Put(OrderedDict(init), pairs[|pairs| - 1])
  }

  /** With distinct names the dict keeps the pairs exactly as written, so the
      order a builder lists is the order sent. */
  lemma {:induction false} OrderedDictOfDistinct(pairs: seq<Param>)
    requires Distinct(Names(pairs))
    ensures OrderedDict(pairs) == pairs
    decreases |pairs|
  {
    if |pairs| > 0 {
      var init := pairs[..|pairs| - 1];
      var last := pairs[|pairs| - 1];
      assert Names(init) == Names(pairs)[..|pairs| - 1];
      OrderedDictOfDistinct(init);
      assert last.0 !in Names(init);
      assert pairs == init + [last];
    }
  }

  /** The remote methods the client calls. */
  datatype Operation =
    | ListSurveysOp
    | ListQuestionsOp
    | ExportResponsesOp
    | GetSurveyPropertiesOp
    | ListUsersOp
    | CheckEmailFormatOp
    | CheckSessionKeyOp
    | DoLoginOp

  /** The method name each operation sends. `_checkEmailFormat` sends
      "_checkEmailFomat", spelled so in the client. */
  function MethodName(op: Operation): string
  {
    match op
    case ListSurveysOp => "list_surveys"
    case ListQuestionsOp => "list_questions"
    case ExportResponsesOp => "export_responses"
    case GetSurveyPropertiesOp => "get_survey_properties"
    case ListUsersOp => "list_users"
    case CheckEmailFormatOp => "_checkEmailFomat"
    case CheckSessionKeyOp => "_checkSessionKey"
    case DoLoginOp => "_doLogin"
  }

  /** The operation a method name selects, if any. */
  function OperationNamed(name: string): Option<Operation>
  {
    if name == "list_surveys" then Some(ListSurveysOp)
    else if name == "list_questions" then Some(ListQuestionsOp)
    else if name == "export_responses" then Some(ExportResponsesOp)
    else if name == "get_survey_properties" then Some(GetSurveyPropertiesOp)
    else if name == "list_users" then Some(ListUsersOp)
    else if name == "_checkEmailFomat" then Some(CheckEmailFormatOp)
    else if name == "_checkSessionKey" then Some(CheckSessionKeyOp)
    else if name == "_doLogin" then Some(DoLoginOp)
    else None
  }

  /** Method names are pairwise different, so a name identifies its operation. */
  lemma OperationNamedMethodName(op: Operation)
    ensures OperationNamed(MethodName(op)) == Some(op)
  {
  }

  /** The parameter names each operation sends, in order. */
  function ParamNames(op: Operation): seq<string>
  {
    match op
    case ListSurveysOp => ["sSessionKey", "iSurveyID"]
    case ListQuestionsOp => ["sSessionKey", "iSurveyID", "iGroupID", "sLanguage"]
    case ExportResponsesOp => ["sSessionKey", "iSurveyID", "sDocumentType", "sLanguageCode"]
    case GetSurveyPropertiesOp => ["sSessionKey", "iSurveyID"]
    case ListUsersOp => ["sSessionKey"]
    case CheckEmailFormatOp => ["sEmail"]
    case CheckSessionKeyOp => ["sSessionKey"]
    case DoLoginOp => ["sUsername", "sPassword", "sPlugin"]
  }

  /** One call per operation of `_Survey`, its arguments typed by position. */
  datatype Call =
    | ListSurveys(sessionKey: string, user: Value)
    | ListQuestions(sessionKey: string, surveyId: Value, groupId: Value, language: Value)
    | ExportResponses(sessionKey: string, surveyId: Value, documentType: Value, languageCode: Value)
    | GetSurveyProperties(sessionKey: string, surveyId: Value)
    | ListUsers(sessionKey: string)
    | CheckEmailFormat(email: Value)
    | CheckSessionKey(sessionKey: string)
    | DoLogin(username: Value, password: Value, plugin: Value)

  /** The calls whose first parameter is a session key. */
  predicate SessionScoped(c: Call)
  {
    !c.CheckEmailFormat? && !c.DoLogin?
  }

  function OperationOf(c: Call): Operation
  {
    match c
    case ListSurveys(_, _) => ListSurveysOp
    case ListQuestions(_, _, _, _) => ListQuestionsOp
    case ExportResponses(_, _, _, _) => ExportResponsesOp
    case GetSurveyProperties(_, _) => GetSurveyPropertiesOp
    case ListUsers(_) => ListUsersOp
    case CheckEmailFormat(_) => CheckEmailFormatOp
    case CheckSessionKey(_) => CheckSessionKeyOp
    case DoLogin(_, _, _) => DoLoginOp
  }

  /** The pairs each method lists in its `OrderedDict([...])`, in order. */
  function Pairs(c: Call): seq<Param>
  {
    match c
    case ListSurveys(key, user) =>
      [("sSessionKey", VStr(key)), ("iSurveyID", user)]
    case ListQuestions(key, survey, group, language) =>
      [("sSessionKey", VStr(key)), ("iSurveyID", survey), ("iGroupID", group), ("sLanguage", language)]
    case ExportResponses(key, survey, docType, languageCode) =>
      [("sSessionKey", VStr(key)), ("iSurveyID", survey), ("sDocumentType", docType), ("sLanguageCode", languageCode)]
    case GetSurveyProperties(key, survey) =>
      [("sSessionKey", VStr(key)), ("iSurveyID", survey)]
    case ListUsers(key) =>
      [("sSessionKey", VStr(key))]
    case CheckEmailFormat(email) =>
      [("sEmail", email)]
    case CheckSessionKey(key) =>
      [("sSessionKey", VStr(key))]
    case DoLogin(user, password, plugin) =>
      [("sUsername", user), ("sPassword", password), ("sPlugin", plugin)]
  }

  /** The request the client hands to the transport. */
  function Encode(c: Call): Request
  {
    Request(MethodName(OperationOf(c)), OrderedDict(Pairs(c)))
  }

  /** Rebuilds a call from parameters already known to carry the operation's
      names in order; a session key must be a string. */
  function Assemble(op: Operation, ps: seq<Param>): Option<Call>
    requires |ps| == |ParamNames(op)|
  {
    match op
    case ListSurveysOp =>
      if ps[0].1.VStr? then Some(ListSurveys(ps[0].1.s, ps[1].1)) else None
    case ListQuestionsOp =>
      if ps[0].1.VStr? then Some(ListQuestions(ps[0].1.s, ps[1].1, ps[2].1, ps[3].1)) else None
    case ExportResponsesOp =>
      if ps[0].1.VStr? then Some(ExportResponses(ps[0].1.s, ps[1].1, ps[2].1, ps[3].1)) else None
    case GetSurveyPropertiesOp =>
      if ps[0].1.VStr? then Some(GetSurveyProperties(ps[0].1.s, ps[1].1)) else None
    case ListUsersOp =>
      if ps[0].1.VStr? then Some(ListUsers(ps[0].1.s)) else None
    case CheckEmailFormatOp =>
      Some(CheckEmailFormat(ps[0].1))
    case CheckSessionKeyOp =>
      if ps[0].1.VStr? then Some(CheckSessionKey(ps[0].1.s)) else None
    case DoLoginOp =>
      Some(DoLogin(ps[0].1, ps[1].1, ps[2].1))
  }

  /** Reads a request back into a call: the method name selects the
      operation, and the parameter names must appear exactly in its order. */
  function Decode(r: Request): Option<Call>
  {
    match OperationNamed(r.operation)
    case None => None
    case Some(op) =>
      if Names(r.params) == ParamNames(op) then Assemble(op, r.params) else None
  }

  /** The pairs of a call carry its operation's names, each name once, and
      `OrderedDict` keeps them as written. */
  lemma PairsShape(c: Call)
    ensures Names(Pairs(c)) == ParamNames(OperationOf(c))
    ensures Distinct(Names(Pairs(c)))
    ensures OrderedDict(Pairs(c)) == Pairs(c)
  {
    assert Names(Pairs(c)) == ParamNames(OperationOf(c));
    OrderedDictOfDistinct(Pairs(c));
  }

  lemma AssemblePairs(c: Call)
    ensures |Pairs(c)| == |ParamNames(OperationOf(c))|
    ensures Assemble(OperationOf(c), Pairs(c)) == Some(c)
  {
    match c
    case ListSurveys(_, _) =>
    case ListQuestions(_, _, _, _) =>
    case ExportResponses(_, _, _, _) =>
    case GetSurveyProperties(_, _) =>
    case ListUsers(_) =>
    case CheckEmailFormat(_) =>
    case CheckSessionKey(_) =>
    case DoLogin(_, _, _) =>
  }

  /** Every request the client builds reads back as the call it came from. */
  lemma DecodeEncode(c: Call)
    ensures Decode(Encode(c)) == Some(c)
  {
    OperationNamedMethodName(OperationOf(c));
    PairsShape(c);
    AssemblePairs(c);
  }

  lemma MethodNameOperationNamed(name: string, op: Operation)
    requires OperationNamed(name) == Some(op)
    ensures MethodName(op) == name
  {
  }

  lemma {:induction false} AssembleInverse(op: Operation, ps: seq<Param>, c: Call)
    requires Names(ps) == ParamNames(op)
    requires Assemble(op, ps) == Some(c)
    ensures OperationOf(c) == op
    ensures Pairs(c) == ps
  {
    match op
    case ListSurveysOp =>
    case ListQuestionsOp =>
    case ExportResponsesOp =>
    case GetSurveyPropertiesOp =>
    case ListUsersOp =>
    case CheckEmailFormatOp =>
    case CheckSessionKeyOp =>
    case DoLoginOp =>
  }

  /** A request that reads back as a call is exactly that call's request: the
      wire form of each operation is unique. */
  lemma EncodeDecode(r: Request, c: Call)
    requires Decode(r) == Some(c)
    ensures Encode(c) == r
  {
    var op := OperationNamed(r.operation).value;
    MethodNameOperationNamed(r.operation, op);
    AssembleInverse(op, r.params, c);
    PairsShape(c);
  }

  /** A session-scoped request carries the session key as its first parameter. */
  lemma SessionKeyFirst(c: Call)
    requires SessionScoped(c)
    ensures |Encode(c).params| > 0
    ensures Encode(c).params[0] == ("sSessionKey", VStr(c.sessionKey))
  {
    PairsShape(c);
  }

  /** `list_surveys(username)`: the user whose surveys are listed is
      `username` when truthy and the client's own login otherwise; it is sent
      under the name "iSurveyID". */
  function ListSurveysRequest(sessionKey: string, apiUsername: string, username: Value): (r: Request)
    ensures Decode(r) == Some(ListSurveys(sessionKey, if Truthy(username) then username else VStr(apiUsername)))
    ensures Lookup(r.params, "iSurveyID") == Some(if Truthy(username) then username else VStr(apiUsername))
    ensures |r.params| == 2 && r.params[0] == ("sSessionKey", VStr(sessionKey))
  {
    var c := ListSurveys(sessionKey, if Truthy(username) then username else VStr(apiUsername));
    DecodeEncode(c);
    PairsShape(c);
    Encode(c)
  }

  /** `list_questions`: group and language are always sent, `None` included. */
  function ListQuestionsRequest(sessionKey: string, surveyId: Value, groupId: Value, language: Value): (r: Request)
    ensures Decode(r) == Some(ListQuestions(sessionKey, surveyId, groupId, language))
    ensures Names(r.params) == ["sSessionKey", "iSurveyID", "iGroupID", "sLanguage"]
    ensures Lookup(r.params, "iGroupID") == Some(groupId)
    ensures Lookup(r.params, "sLanguage") == Some(language)
  {
    var c := ListQuestions(sessionKey, surveyId, groupId, language);
    DecodeEncode(c);
    PairsShape(c);
    Encode(c)
  }

  /** `export_responses`: survey, document type, then language code. */
  function ExportResponsesRequest(sessionKey: string, surveyId: Value, documentType: Value, languageCode: Value): (r: Request)
    ensures Decode(r) == Some(ExportResponses(sessionKey, surveyId, documentType, languageCode))
    ensures Names(r.params) == ["sSessionKey", "iSurveyID", "sDocumentType", "sLanguageCode"]
    ensures Lookup(r.params, "sLanguageCode") == Some(languageCode)
  {
    var c := ExportResponses(sessionKey, surveyId, documentType, languageCode);
    DecodeEncode(c);
    PairsShape(c);
    Encode(c)
  }

  function GetSurveyPropertiesRequest(sessionKey: string, surveyId: Value): (r: Request)
    ensures Decode(r) == Some(GetSurveyProperties(sessionKey, surveyId))
    ensures Names(r.params) == ["sSessionKey", "iSurveyID"]
  {
    var c := GetSurveyProperties(sessionKey, surveyId);
    DecodeEncode(c);
    PairsShape(c);
    Encode(c)
  }

  function ListUsersRequest(sessionKey: string): (r: Request)
    ensures Decode(r) == Some(ListUsers(sessionKey))
    ensures r.params == [("sSessionKey", VStr(sessionKey))]
  {
    var c := ListUsers(sessionKey);
    DecodeEncode(c);
    PairsShape(c);
    Encode(c)
  }

  function CheckEmailFormatRequest(email: Value): (r: Request)
    ensures Decode(r) == Some(CheckEmailFormat(email))
    ensures r.params == [("sEmail", email)]
  {
    var c := CheckEmailFormat(email);
    DecodeEncode(c);
    PairsShape(c);
    Encode(c)
  }

  function CheckSessionKeyRequest(sessionKey: string): (r: Request)
    ensures Decode(r) == Some(CheckSessionKey(sessionKey))
    ensures r.params == [("sSessionKey", VStr(sessionKey))]
  {
    var c := CheckSessionKey(sessionKey);
    DecodeEncode(c);
    PairsShape(c);
    Encode(c)
  }

  function DoLoginRequest(username: Value, password: Value, plugin: Value): (r: Request)
    ensures Decode(r) == Some(DoLogin(username, password, plugin))
    ensures Names(r.params) == ["sUsername", "sPassword", "sPlugin"]
  {
    var c := DoLogin(username, password, plugin);
    DecodeEncode(c);
    PairsShape(c);
    Encode(c)
  }
}
