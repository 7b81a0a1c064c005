# limesurveyrc2api `_Survey`, modelled in Dafny

This project models the survey half of the LimeSurvey RemoteControl 2 client:
the `_Survey` class, which sends JSON-RPC calls through the client's `query`
and interprets the untyped replies. The service's reply is an input value of
the model, so the transport never runs. Each file holds one concern:

- `values.dfy` (`Values`): the JSON reply as a `Value` datatype, plus Python's
  truthiness, `str()` of scalars and the decimal rendering of integers.
- `outcomes.dfy` (`Outcomes`): `Outcome<T>`, which is either a returned value
  or a raised `Failure`. The failures are `LimeSurveyError(method, status)`,
  a plain `Exception(message)`, a failed `assert`, `KeyError`, `TypeError`,
  and the two decode errors.
- `replies.dfy` (`Replies`): the reply classifiers of `list_surveys`,
  `list_questions`, `export_responses`, `_checkEmailFormat` and
  `_checkSessionKey`, with their status tables.
- `params.dfy` (`Params`): the `OrderedDict` parameter lists each method
  sends. A typed `Call` encodes to a request and decodes back, and the round
  trip is proved in both directions.
- `users.dfy` (`Users`): `get_users_by_id`, which re-keys the `list_users`
  reply by `uid` and strips the display-only fields.
- `base64.dfy` (`Base64`) and `utf8.dfy` (`Utf8`): the two decodings applied
  to the export payload. Each comes with an encoder and a round-trip proof.
  Base64 follows section 4 of RFC 4648. UTF-8 follows Table 3-7 of the
  Unicode Standard.
- `export.dfy` (`Export`): `export_responses_to_file`. It builds the file
  name and the content, and writes the file into a map from names to
  contents.
- `survey.dfy` (`Survey`): each `_Survey` method that interprets its reply,
  as one function. It builds the request, asks a transport (a function from
  request to reply), and interprets the reply.

Behaviours of the code worth knowing, all modelled as written:

- In `list_surveys` and `list_questions`, a mapping whose `status` is not in
  the table comes back as data. It does not raise.
- A reply that is neither a list nor a mapping with `status` fails the `assert`.
- The `list_questions` table spells its third message "IMissmatch".
- `list_surveys` sends the user name under the key `iSurveyID`.
- `_checkEmailFormat` sends the method name `_checkEmailFomat`.
- `get_users_by_id` keys the directory by the `uid` value as given. It does
  not convert the `uid` to a string. A record without `permissions` raises
  `KeyError`.
- In `export_responses`, any status outside the "no data" table raises
  `Exception("Unexpected Error")`.

## Model

| member | source | states |
|---|---|---|
| `Replies.FirstMatch` | limesurveyrc2api/_survey.py:34-36 | the message scan finds a match exactly when the status is a string that is one of the messages, and the match is that status |
| `Replies.ClassifyListing` | limesurveyrc2api/_survey.py:27-39 | the shared listing rule: a list, or a mapping whose status is not listed, returns unchanged; a listed status raises `LimeSurveyError(method, status)`; anything else fails the assertion |
| `Replies.ListSurveysReply` | limesurveyrc2api/_survey.py:27-39 | `list_surveys` raises `LimeSurveyError("list_surveys", s)` exactly for the three listed statuses; lists and unlisted statuses come back unchanged; every other reply fails the assertion |
| `Replies.ListQuestionsReply` | limesurveyrc2api/_survey.py:241-256 | the same rule for `list_questions` with its six-message table |
| `Replies.ListQuestionsTableSpelling` | limesurveyrc2api/_survey.py:246 | the "IMissmatch" status raises; the "IMismatch" spelling is not in the table and comes back as data |
| `Replies.EmptyListingIsData` | limesurveyrc2api/_survey.py:37-39 | the empty list is returned by both listing operations and never raises |
| `Replies.ExportResponsesReply` | limesurveyrc2api/_survey.py:159-170 | a reply without a status returns unchanged; a status returns `None` exactly when it is one of the two "no data" messages; any other status raises `Exception("Unexpected Error")` |
| `Replies.BoolReply` | limesurveyrc2api/_survey.py:49-52 | succeeds exactly on a boolean reply and returns that boolean; otherwise raises the given message |
| `Replies.CheckEmailFormatReply` | limesurveyrc2api/_survey.py:49-52 | `true` and `false` come back as they are; every non-boolean reply raises "Error: Unable to validate email" |
| `Replies.CheckSessionKeyReply` | limesurveyrc2api/_survey.py:62-65 | `true` and `false` come back as they are; every non-boolean reply raises "Error: Unable to validate session key" |
| `Replies.BoolReplyNeverCoerces` | limesurveyrc2api/_survey.py:49-65 | a truthy reply that is not a boolean is never accepted as `True`; both checks raise on it |
| `Params.OrderedDict` | limesurveyrc2api/_survey.py:20-23 | the dict built from pairs has distinct names, the names of the pairs, and for each name the value of its last pair |
| `Params.OrderedDictOfDistinct` | limesurveyrc2api/_survey.py:20-23 | with distinct names the dict keeps the pairs in the order written |
| `Params.DecodeEncode` | limesurveyrc2api/_survey.py:19-23 | every request the client builds reads back as the call it came from |
| `Params.EncodeDecode` | limesurveyrc2api/_survey.py:148-154 | a request that reads back as a call is that call's request, so each operation has one wire form |
| `Params.SessionKeyFirst` | limesurveyrc2api/_survey.py:103-106 | every session-scoped request sends `sSessionKey` first, holding the session key |
| `Params.ListSurveysRequest` | limesurveyrc2api/_survey.py:19-23 | `list_surveys` sends the session key, then under `iSurveyID` the username if truthy and the client's login otherwise |
| `Params.ListQuestionsRequest` | limesurveyrc2api/_survey.py:231-237 | `list_questions` sends its four keys in order, always including `iGroupID` and `sLanguage`, `None` or not |
| `Params.ExportResponsesRequest` | limesurveyrc2api/_survey.py:148-154 | `export_responses` sends the session key, `iSurveyID`, `sDocumentType`, `sLanguageCode` in that order |
| `Params.GetSurveyPropertiesRequest` | limesurveyrc2api/_survey.py:102-106 | `get_survey_properties` sends the session key and `iSurveyID` |
| `Params.ListUsersRequest` | limesurveyrc2api/_survey.py:115-118 | `list_users` sends only the session key |
| `Params.CheckEmailFormatRequest` | limesurveyrc2api/_survey.py:42-45 | `_checkEmailFormat` sends only `sEmail` |
| `Params.CheckSessionKeyRequest` | limesurveyrc2api/_survey.py:55-58 | `_checkSessionKey` sends only the given session key |
| `Params.DoLoginRequest` | limesurveyrc2api/_survey.py:68-73 | `_doLogin` sends `sUsername`, `sPassword`, `sPlugin` in that order |
| `Users.Sanitized` | limesurveyrc2api/_survey.py:129-133 | the stored record has exactly the user's fields minus the five stripped ones, each with its value unchanged |
| `Users.Entry` | limesurveyrc2api/_survey.py:129-135 | one loop pass: a non-mapping raises `TypeError`; a missing `permissions` raises `KeyError('permissions')` before a missing `uid` raises `KeyError('uid')`; an unhashable `uid` raises `TypeError` at the store; it succeeds exactly on well-formed records |
| `Users.GetUsersById` | limesurveyrc2api/_survey.py:125-137 | a list reply is run through the loop; an empty dict or empty string gives `{}`; a nonempty dict or string, and every other reply, raises `TypeError` |
| `Users.BuildReturnedIff` | limesurveyrc2api/_survey.py:128-137 | the directory is built exactly when every record has `permissions` and a hashable `uid`; the editor-mode keys are optional |
| `Users.BuildRaisedFirst` | limesurveyrc2api/_survey.py:128-135 | a failed build raises the exception of the first malformed record |
| `Users.BuildKeys` | limesurveyrc2api/_survey.py:130-135 | every user's `uid` is a key of the directory |
| `Users.BuildLastWins` | limesurveyrc2api/_survey.py:135 | every key belongs to some user, and maps to the stripped record of the last user with that `uid` |
| `Users.BuildStripsDisplayFields` | limesurveyrc2api/_survey.py:129-133 | no stored record carries `uid`, `permissions` or an editor-mode key |
| `Users.SanitizeExample` | limesurveyrc2api/_survey.py:123-137 | a user with uid "3" is filed under "3" with only their full name left |
| `Values.ParseIntToString` | limesurveyrc2api/_survey.py:194-198 | `str(survey_id)` reads back as `survey_id` |
| `Values.PyStr` | limesurveyrc2api/_survey.py:192-195 | `str()` leaves a string unchanged, renders `None` as "None" and booleans as "True"/"False", and renders an integer as its canonical numeral (sign exactly when negative, no leading zero), which reads back as itself |
| `Values.IntToString` | limesurveyrc2api/_survey.py:194-198 | `str(survey_id)` carries a '-' exactly when the id is negative and is a canonical numeral |
| `Values.CanonicalNumeralUnique` | limesurveyrc2api/_survey.py:194-198 | the canonical numeral that reads back as `i` is `str(i)` and no other, so padded spellings such as "07" never occur |
| `Base64.DecodeEncode` | limesurveyrc2api/_survey.py:202 | base64-decoding the encoding of any bytes gives those bytes back |
| `Utf8.DecodeEncode` | limesurveyrc2api/_survey.py:202 | UTF-8-decoding the encoding of any text gives that text back |
| `Utf8.EncodeDecode` | limesurveyrc2api/_survey.py:202 | bytes that decode to a text are that text's encoding, so malformed and overlong forms never decode |
| `Export.OwnerFullName` | limesurveyrc2api/_survey.py:190-195 | the owner's name is the `full_name` of the directory entry under `str(owner_id)`, returned whenever that entry and field exist; a missing `owner_id`, entry or `full_name` raises the matching `KeyError`; non-dict properties raise `TypeError` |
| `Export.DecodePayload` | limesurveyrc2api/_survey.py:201-202 | a non-string payload raises `TypeError`, bad base64 and bad UTF-8 raise their own errors, a payload both decoders accept returns the decoded text, and that text re-encodes to the payload's bytes |
| `Export.DecodePayloadRoundTrip` | limesurveyrc2api/_survey.py:201-202 | any text the service encodes as UTF-8 and then base64 decodes back to itself |
| `Export.ExportContents` | limesurveyrc2api/_survey.py:187-206 | an export error propagates, then an owner-lookup error, then a decode error; otherwise the call returns: the name is `"{survey_id}.{document_type}"` without a directory and `"{survey_id}_{full_name}.{document_type}"` with one, and the content is the placeholder for "no data", else the decoded payload |
| `Export.ExportResponsesToFile` | limesurveyrc2api/_survey.py:187-214 | on an exception no file changes; on success the named file holds the content and every other file is unchanged; a status outside the "no data" table raises "Unexpected Error" and writes nothing; a "no data" status writes the placeholder, and a decodable payload its text, under `"{survey_id}.{document_type}"` without a directory or under the owner-named file when the owner resolves |
| `Export.NoDataWritesPlaceholder` | limesurveyrc2api/_survey.py:164-165 | both "no data" statuses write "No Response Data" under `"{survey_id}.{document_type}"` |
| `Export.ExportWritesOwnerNamedFile` | limesurveyrc2api/_survey.py:189-202 | with the owner's entry in the directory, an encoded document is written under `"{survey_id}_{full_name}.{document_type}"` as its text |
| `Export.ExportWritesDecodedText` | limesurveyrc2api/_survey.py:201-202 | an encoded document is written back as its text |
| `Export.HelloWorldExport` | limesurveyrc2api/_survey.py:197-202 | survey 42, "csv", payload encoding "hello world": the file "42.csv" holds "hello world" |
| `Export.OwnerFileNameExample` | limesurveyrc2api/_survey.py:189-196 | survey 7 owned by user 5 "Bo Lin", "pdf", no data: the file "7_Bo Lin.pdf" holds the placeholder |
| `Export.ParseFileNameOf` | limesurveyrc2api/_survey.py:194-198 | the survey id can always be read back from the file name; so can the owner and document type when the owner's name has no '.' |
| `Export.ExportNameCarriesSurveyId` | limesurveyrc2api/_survey.py:187-198 | every file the export writes is named after its survey id |
| `Survey.ListSurveys` | limesurveyrc2api/_survey.py:11-39 | `list_surveys` end to end: a list reply or an unlisted status is returned unchanged, `LimeSurveyError` is raised exactly for a listed status, and every other reply fails the assertion |
| `Survey.ListQuestions` | limesurveyrc2api/_survey.py:219-256 | `list_questions` end to end, the same four cases with its own table |
| `Survey.ExportResponses` | limesurveyrc2api/_survey.py:141-170 | `export_responses` end to end: a reply without a status is returned; a status gives `None` exactly for the two "no data" messages and otherwise raises "Unexpected Error" |
| `Survey.CheckEmailFormat` | limesurveyrc2api/_survey.py:41-52 | `_checkEmailFormat` returns the reply exactly when it is a boolean, and otherwise raises `Exception("Error: Unable to validate email")` |
| `Survey.CheckSessionKey` | limesurveyrc2api/_survey.py:54-65 | `_checkSessionKey` returns the reply exactly when it is a boolean, and otherwise raises `Exception("Error: Unable to validate session key")` |
| `Survey.UsersById` | limesurveyrc2api/_survey.py:123-137 | `get_users_by_id` after `list_users`: a list reply succeeds exactly when every record is well formed, keys every `uid`, keeps each key's last record stripped of the display fields, and otherwise raises the first malformed record's error; an empty dict or string gives `{}`; a nonempty dict or string, or any scalar reply, raises `TypeError` |
| `Survey.ExportResponsesToFile` | limesurveyrc2api/_survey.py:173-214 | `export_responses_to_file` end to end: the outcome and the written file are exactly those of the export's content step, so an exception leaves the files as they were; a status outside the "no data" table raises "Unexpected Error"; a "no data" reply writes the placeholder and a decodable payload its text, under `"{survey_id}.{document_type}"` without a directory or under the owner-named file when the owner resolves |
| `Survey.ExportEncodedDocument` | limesurveyrc2api/_survey.py:187-214 | a document the service returns encoded is written, without a directory, as its text |

## Left out

- The transport (`self.api.query`) and the session object. Each reply is an
  input value, or the value a `Transport` function gives for the request.
  The session key is a plain string.
- The debug `print` and the real `open`/`write`/`close` of the export
  (limesurveyrc2api/_survey.py:210-214). The written file is an update of a
  map from file names to contents. Failures of the file system, and the
  encoding `open` uses for text, are not modelled.
- `activate_survey` and `delete_survey`. Both only pass their reply through,
  and they are declared without `self`, so they cannot be called as methods.
- `get_survey_properties`, `list_users` and `_doLogin` return the reply
  unchanged. Only their parameter lists are modelled.
- `LimeSurveyError` is defined in `limesurveyrc2api/exceptions.py`, which is
  not part of this model. It is the `LimeSurveyError(operation, status)`
  failure here.
- Export.DecodePayload: decodes padded base64 over the standard alphabet;
  the unused bits of the last group are ignored, as Python does. Python's
  non-validating `b64decode` also drops characters outside the alphabet and
  accepts some irregular padding. Such payloads raise `Base64Error` here,
  where Python may decode them.
- Export.OwnerFullName: requires `owner_id` and every `full_name` to be a
  scalar. `str()` of a list or dict is Python's repr, which is not modelled.
- Export.ExportContents: the same scalar requirement on `owner_id` and
  `full_name`.
- Export.ExportResponsesToFile: the same scalar requirement on `owner_id` and
  `full_name`.
- Survey.ExportResponsesToFile: the same scalar requirement on `owner_id` and
  `full_name`.
- `survey_id` is an integer and `document_type` a string in the file name,
  as the method's docstring gives them. Other types are not rendered.
- Python treats `True == 1` as the same dict key. Here `VBool(true)` and
  `VInt(1)` are different `uid` keys.
- Floating-point numbers in replies are not modelled.
- `assert` is modelled as enabled. Under `python -O` the listing operations
  would return any reply.
- In Python, `get_users_by_id` deletes keys from the reply's own records.
  The model returns new records and does not model that aliasing.
