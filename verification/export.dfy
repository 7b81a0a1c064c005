/** `export_responses_to_file`: the file name composed from the survey id,
    the document type and optionally the owner's full name, and the content
    decoded from the export payload or the "no data" placeholder. The file
    write itself is modelled as an update of a map from names to contents. */
module Export {
  import opened Values
  import opened Outcomes
  import opened Replies
  import opened Users
  import Base64
  import Utf8

  /** What is written when the survey has no responses. */
  const NoResponseText: string := "No Response Data"

  /** Local files by name. */
  type Files = map<string, string>

  /** `"{}_{}.{}".format(survey_id, full_name, document_type)` with an owner,
      `"{}.{}".format(survey_id, document_type)` without. */
  function FileName(surveyId: int, documentType: string, owner: Option<string>): string
  {
    match owner
    case Some(fullName) => IntToString(surveyId) + "_" + fullName + "." + documentType
    case None => IntToString(surveyId) + "." + documentType
  }

  /** `str(owner_id)` and `str(full_name)` are only modelled for scalar values. */
  predicate OwnerIdScalar(properties: Value)
  {
    properties.VMap? && "owner_id" in properties.fields ==> IsScalar(properties.fields["owner_id"])
  }

  predicate FullNamesScalar(directory: Directory)
  {
    forall k :: k in directory && "full_name" in directory[k] ==> IsScalar(directory[k]["full_name"])
  }

  /** The owner lookup: `properties["owner_id"]`, then
      `users_by_id[str(owner_id)]`, then `["full_name"]`. */
  function OwnerFullName(directory: Directory, properties: Value): (r: Outcome<string>)
    requires OwnerIdScalar(properties) && FullNamesScalar(directory)
    ensures !properties.VMap? ==> r == Raised(TypeError)
    ensures properties.VMap? && "owner_id" !in properties.fields ==> r == Raised(KeyError(VStr("owner_id")))
    ensures r.Returned? ==>
              properties.VMap? && "owner_id" in properties.fields &&
              var key := VStr(PyStr(properties.fields["owner_id"]));
              key in directory && "full_name" in directory[key] &&
              r.value == PyStr(directory[key]["full_name"])
    ensures (properties.VMap? && "owner_id" in properties.fields &&
             VStr(PyStr(properties.fields["owner_id"])) !in directory)
              ==> r == Raised(KeyError(VStr(PyStr(properties.fields["owner_id"]))))
    ensures (properties.VMap? && "owner_id" in properties.fields &&
             var key := VStr(PyStr(properties.fields["owner_id"]));
             key in directory && "full_name" !in directory[key])
              ==> r == Raised(KeyError(VStr("full_name")))
    ensures (properties.VMap? && "owner_id" in properties.fields &&
             var key := VStr(PyStr(properties.fields["owner_id"]));
             key in directory && "full_name" in directory[key])
              ==> r.Returned?
  {
    match properties
    case VMap(fields) =>
      if "owner_id" !in fields then Raised(KeyError(VStr("owner_id")))
      else
        var key := VStr(PyStr(fields["owner_id"]));
        if key !in directory then Raised(KeyError(key))
        else if "full_name" !in directory[key] then Raised(KeyError(VStr("full_name")))
        else Returned(PyStr(directory[key]["full_name"]))
    case _ => Raised(TypeError)
  }

  /** `base64.b64decode(response_data).decode("utf-8")`: only a string
      payload is accepted, and each of the two decodings can fail. */
  function DecodePayload(data: Value): (r: Outcome<string>)
    ensures !data.VStr? ==> r == Raised(TypeError)
    ensures data.VStr? && Base64.Decode(data.s).None? ==> r == Raised(Base64Error)
    ensures (data.VStr? && Base64.Decode(data.s).Some? && Utf8.Decode(Base64.Decode(data.s).value).Some?)
              ==> r == Returned(Utf8.Decode(Base64.Decode(data.s).value).value)
    ensures (data.VStr? && Base64.Decode(data.s).Some? && Utf8.Decode(Base64.Decode(data.s).value).None?)
              ==> r == Raised(Utf8Error)
    ensures r.Returned? ==>
              data.VStr? && Base64.Decode(data.s).Some? &&
              Utf8.Encode(r.value) == Base64.Decode(data.s).value
  {
    if !data.VStr? then Raised(TypeError)
    else match Base64.Decode(data.s)
      case None => Raised(Base64Error)
      case Some(bytes) =>
        match Utf8.Decode(bytes)
        case None => Raised(Utf8Error)
        case Some(text) => Utf8.EncodeDecode(bytes, text); Returned(text)
  }

  /** Any text, encoded the way the service encodes a document, decodes back
      to itself. */
  lemma DecodePayloadRoundTrip(text: string)
    ensures DecodePayload(VStr(Base64.Encode(Utf8.Encode(text)))) == Returned(text)
  {
    Utf8.DecodeEncode(text);
    Base64.DecodeEncode(Utf8.Encode(text));
  }

  /** The file `export_responses_to_file` would write, as (name, content),
      or the exception it raises first. The order of the steps is the
      source's: the export reply is classified, then the owner is looked up,
      then the payload is decoded, and only then is the file opened. */
  function ExportContents(surveyId: int, documentType: string, directory: Option<Directory>,
                          exportReply: Value, properties: Value): (r: Outcome<(string, string)>)
    requires directory.Some? ==> OwnerIdScalar(properties) && FullNamesScalar(directory.value)
    ensures ExportResponsesReply(exportReply).Raised? ==> r == ExportResponsesReply(exportReply).PropagateFailure()
    ensures r.Returned? && ExportResponsesReply(exportReply) == Returned(VNull) ==> r.value.1 == NoResponseText
    ensures r.Returned? && ExportResponsesReply(exportReply) != Returned(VNull) ==>
              DecodePayload(ExportResponsesReply(exportReply).value) == Returned(r.value.1)
    ensures r.Returned? && directory.None? ==> r.value.0 == FileName(surveyId, documentType, None)
    ensures (directory.Some? && ExportResponsesReply(exportReply).Returned? &&
             OwnerFullName(directory.value, properties).Raised?)
              ==> r == OwnerFullName(directory.value, properties).PropagateFailure()
    ensures ((directory.None? || OwnerFullName(directory.value, properties).Returned?) &&
             ExportResponsesReply(exportReply).Returned? &&
             ExportResponsesReply(exportReply) != Returned(VNull) &&
             DecodePayload(ExportResponsesReply(exportReply).value).Raised?)
              ==> r == DecodePayload(ExportResponsesReply(exportReply).value).PropagateFailure()
    ensures ((directory.None? || OwnerFullName(directory.value, properties).Returned?) &&
             ExportResponsesReply(exportReply).Returned? &&
             (ExportResponsesReply(exportReply) == Returned(VNull) ||
              DecodePayload(ExportResponsesReply(exportReply).value).Returned?))
              ==> r.Returned?
    ensures r.Returned? && directory.Some? ==>
              OwnerFullName(directory.value, properties).Returned? &&
              r.value.0 == FileName(surveyId, documentType, Some(OwnerFullName(directory.value, properties).value))
  {
    var data :- ExportResponsesReply(exportReply);
    var owner :- match directory
      case None => Returned(None)
      case Some(d) =>
        match OwnerFullName(d, properties)
        case Raised(f) => Raised(f)
        case Returned(fullName) => Returned(Some(fullName));
    var name := FileName(surveyId, documentType, owner);
    var content :- if data == VNull then Returned(NoResponseText) else DecodePayload(data);
    Returned((name, content))
  }

  /** `export_responses_to_file` with the file system as a value: on success
      the named file holds exactly the content and no other file changes; on
      an exception nothing is written. */
  function ExportResponsesToFile(files: Files, surveyId: int, documentType: string,
                                 directory: Option<Directory>, exportReply: Value,
                                 properties: Value): (r: (Outcome<()>, Files))
    requires directory.Some? ==> OwnerIdScalar(properties) && FullNamesScalar(directory.value)
    ensures var e := ExportContents(surveyId, documentType, directory, exportReply, properties);
            && (e.Raised? ==> r.0 == Raised(e.failure) && r.1 == files)
            && (e.Returned? ==> r.0 == Returned(())
                                && r.1.Keys == files.Keys + {e.value.0}
                                && r.1[e.value.0] == e.value.1
                                && forall f :: f in files && f != e.value.0 ==> r.1[f] == files[f])
    ensures (HasStatus(exportReply) &&
             !(exportReply.fields["status"].VStr? && exportReply.fields["status"].s in NoDataMessages))
              ==> r == (Raised(GenericException("Unexpected Error")), files)
    ensures (directory.None? && HasStatus(exportReply) && exportReply.fields["status"].VStr? &&
             exportReply.fields["status"].s in NoDataMessages)
              ==> r == (Returned(()), files[FileName(surveyId, documentType, None) := NoResponseText])
    ensures (directory.Some? && OwnerFullName(directory.value, properties).Returned? && HasStatus(exportReply) &&
             exportReply.fields["status"].VStr? && exportReply.fields["status"].s in NoDataMessages)
              ==> r == (Returned(()),
                        files[FileName(surveyId, documentType, Some(OwnerFullName(directory.value, properties).value))
                              := NoResponseText])
    ensures (directory.None? && DecodePayload(exportReply).Returned?)
              ==> r == (Returned(()), files[FileName(surveyId, documentType, None) := DecodePayload(exportReply).value])
    ensures (directory.Some? && OwnerFullName(directory.value, properties).Returned? &&
             DecodePayload(exportReply).Returned?)
              ==> r == (Returned(()),
                        files[FileName(surveyId, documentType, Some(OwnerFullName(directory.value, properties).value))
                              := DecodePayload(exportReply).value])
  {
    match ExportContents(surveyId, documentType, directory, exportReply, properties)
    case Raised(f) => (Raised(f), files)
    case Returned((name, content)) => (Returned(()), files[name := content])
  }

  /** Both "no data" replies produce the placeholder file, whatever the
      document type. */
  lemma NoDataWritesPlaceholder(surveyId: int, documentType: string, status: string)
    requires status in NoDataMessages
    ensures ExportContents(surveyId, documentType, None, VMap(map["status" := VStr(status)]), VNull)
            == Returned((FileName(surveyId, documentType, None), NoResponseText))
  {
  }

  /** A document encoded by the service is written back as its text. */
  lemma ExportWritesDecodedText(surveyId: int, documentType: string, text: string)
    ensures ExportContents(surveyId, documentType, None, VStr(Base64.Encode(Utf8.Encode(text))), VNull)
            == Returned((FileName(surveyId, documentType, None), text))
  {
    DecodePayloadRoundTrip(text);
  }

  /** With a directory holding the owner's entry, an encoded document is
      written under the owner-named file as its text. */
  lemma ExportWritesOwnerNamedFile(surveyId: int, documentType: string, directory: Directory,
                                   ownerId: Value, text: string)
    requires IsScalar(ownerId) && FullNamesScalar(directory)
    requires VStr(PyStr(ownerId)) in directory && "full_name" in directory[VStr(PyStr(ownerId))]
    ensures var fullName := PyStr(directory[VStr(PyStr(ownerId))]["full_name"]);
            ExportContents(surveyId, documentType, Some(directory), VStr(Base64.Encode(Utf8.Encode(text))),
                           VMap(map["owner_id" := ownerId]))
            == Returned((FileName(surveyId, documentType, Some(fullName)), text))
  {
    DecodePayloadRoundTrip(text);
  }

  /** Survey 42, document type "csv", payload the encoding of "hello world",
      no directory: the file is "42.csv" and holds "hello world". */
  lemma HelloWorldExport()
    ensures ExportContents(42, "csv", None, VStr(Base64.Encode(Utf8.Encode("hello world"))), VNull)
            == Returned(("42.csv", "hello world"))
  {
    ExportWritesDecodedText(42, "csv", "hello world");
    FileNameFortyTwo();
  }

  lemma FileNameFortyTwo()
    ensures FileName(42, "csv", None) == "42.csv"
  {
    assert NatToString(4) == "4";
    assert IntToString(42) == "42";
  }

  /** Survey 7, document type "pdf", owner 5 filed as "Bo Lin": the file is
      "7_Bo Lin.pdf". */
  lemma OwnerFileNameExample()
    ensures ExportContents(7, "pdf", Some(map[VStr("5") := map["full_name" := VStr("Bo Lin")]]),
                           VMap(map["status" := VStr("No Data, could not get max id.")]),
                           VMap(map["owner_id" := VInt(5)]))
            == Returned(("7_Bo Lin.pdf", NoResponseText))
  {
    var directory := map[VStr("5") := map["full_name" := VStr("Bo Lin")]];
    var properties := VMap(map["owner_id" := VInt(5)]);
    assert PyStr(VInt(5)) == "5" by {
      assert IntToString(5) == "5";
    }
    assert OwnerFullName(directory, properties) == Returned("Bo Lin");
    assert FileName(7, "pdf", Some("Bo Lin")) == "7_Bo Lin.pdf" by {
      assert IntToString(7) == "7";
    }
  }

  /** Index of the first character of `s` in `stops`, or `|s|`. */
  function FirstIndexIn(s: string, stops: set<char>): (i: int)
    ensures 0 <= i <= |s|
    ensures forall k :: 0 <= k < i ==> s[k] !in stops
    ensures i < |s| ==> s[i] in stops
  {
    if |s| == 0 then 0
    else if s[0] in stops then 0
    else 1 + FirstIndexIn(s[1..], stops)
  }

  /** Reads a file name back into survey id, owner name and document type:
      the survey id runs to the first '_' or '.', an owner name to the next
      '.', and the document type to the end. */
  function ParseFileName(name: string): Option<(int, Option<string>, string)>
  {
    var i := FirstIndexIn(name, {'_', '.'});
    if i == |name| then None
    else match ParseInt(name[..i])
      case None => None
      case Some(surveyId) =>
        if name[i] == '.' then Some((surveyId, None, name[i + 1..]))
        else ParseOwnerRest(surveyId, name[i + 1..])
  }

  /** The part after the '_': the owner name runs to the next '.', and the
      document type to the end. */
  function ParseOwnerRest(surveyId: int, rest: string): Option<(int, Option<string>, string)>
  {
    var j := FirstIndexIn(rest, {'.'});
    if j == |rest| then None else Some((surveyId, Some(rest[..j]), rest[j + 1..]))
  }

  lemma {:induction false} FirstIndexInSplit(a: string, c: char, b: string, stops: set<char>)
    requires forall k :: 0 <= k < |a| ==> a[k] !in stops
    requires c in stops
    ensures FirstIndexIn(a + [c] + b, stops) == |a|
    decreases |a|
  {
    if |a| > 0 {
      assert (a + [c] + b)[1..] == a[1..] + [c] + b;
      FirstIndexInSplit(a[1..], c, b, stops);
    }
  }

  /** The survey id's numeral holds neither separator of a file name. */
  lemma NumeralHasNoSeparator(i: int)
    ensures ParseInt(IntToString(i)) == Some(i)
    ensures forall k :: 0 <= k < |IntToString(i)| ==> IntToString(i)[k] !in {'_', '.'}
  {
    ParseIntToString(i);
  }

  /** A name without an owner reads back completely. */
  lemma ParseFileNameNoOwner(surveyId: int, documentType: string)
    ensures ParseFileName(FileName(surveyId, documentType, None)) == Some((surveyId, None, documentType))
  {
    var sid := IntToString(surveyId);
    NumeralHasNoSeparator(surveyId);
    var name := sid + "." + documentType;
    FirstIndexInSplit(sid, '.', documentType, {'_', '.'});
    assert name[..|sid|] == sid;
    assert name[|sid| + 1..] == documentType;
  }

  /** The part after the '_' of an owner's name: the owner name ends at its
      first '.', which is the separator when the owner name has none. */
  lemma ParseOwnerPart(surveyId: int, fullName: string, documentType: string)
    ensures ParseOwnerRest(surveyId, fullName + "." + documentType).Some?
    ensures ParseOwnerRest(surveyId, fullName + "." + documentType).value.0 == surveyId
    ensures '.' !in fullName ==>
              ParseOwnerRest(surveyId, fullName + "." + documentType) == Some((surveyId, Some(fullName), documentType))
  {
    var rest := fullName + "." + documentType;
    assert rest[|fullName|] == '.';
    if '.' !in fullName {
      assert forall k :: 0 <= k < |fullName| ==> fullName[k] !in {'.'};
      FirstIndexInSplit(fullName, '.', documentType, {'.'});
      assert rest[..|fullName|] == fullName;
      assert rest[|fullName| + 1..] == documentType;
    }
  }

  /** Parsing a name that is a numeral, '_', then the rest: the numeral is
      read as the survey id and the rest is parsed as owner and type. */
  lemma ParseAfterUnderscore(sid: string, surveyId: int, rest: string)
    requires ParseInt(sid) == Some(surveyId)
    requires forall k :: 0 <= k < |sid| ==> sid[k] !in {'_', '.'}
    ensures ParseFileName(sid + ['_'] + rest) == ParseOwnerRest(surveyId, rest)
  {
    var name := sid + ['_'] + rest;
    FirstIndexInSplit(sid, '_', rest, {'_', '.'});
    assert name[..|sid|] == sid;
    assert name[|sid| + 1..] == rest;
  }

  /** A name with an owner yields the survey id, and the owner name and
      document type too when the owner name has no '.'. */
  lemma ParseFileNameWithOwner(surveyId: int, documentType: string, fullName: string)
    ensures ParseFileName(FileName(surveyId, documentType, Some(fullName))).Some?
    ensures ParseFileName(FileName(surveyId, documentType, Some(fullName))).value.0 == surveyId
    ensures '.' !in fullName ==>
              ParseFileName(FileName(surveyId, documentType, Some(fullName)))
              == Some((surveyId, Some(fullName), documentType))
  {
    var sid := IntToString(surveyId);
    NumeralHasNoSeparator(surveyId);
    var rest := fullName + "." + documentType;
    assert FileName(surveyId, documentType, Some(fullName)) == sid + ['_'] + rest;
    ParseAfterUnderscore(sid, surveyId, rest);
    ParseOwnerPart(surveyId, fullName, documentType);
  }

  /** The survey id can always be read back from the file name, and so can
      the owner name and document type when the owner name has no '.'. */
  lemma ParseFileNameOf(surveyId: int, documentType: string, owner: Option<string>)
    ensures ParseFileName(FileName(surveyId, documentType, owner)).Some?
    ensures ParseFileName(FileName(surveyId, documentType, owner)).value.0 == surveyId
    ensures (owner.None? || '.' !in owner.value) ==>
              ParseFileName(FileName(surveyId, documentType, owner)) == Some((surveyId, owner, documentType))
  {
    match owner
    case None => ParseFileNameNoOwner(surveyId, documentType);
    case Some(fullName) => ParseFileNameWithOwner(surveyId, documentType, fullName);
  }

  /** Every written file's name starts with the survey id it belongs to. */
  lemma ExportNameCarriesSurveyId(surveyId: int, documentType: string, directory: Option<Directory>,
                                  exportReply: Value, properties: Value)
    requires directory.Some? ==> OwnerIdScalar(properties) && FullNamesScalar(directory.value)
    requires ExportContents(surveyId, documentType, directory, exportReply, properties).Returned?
    ensures var name := ExportContents(surveyId, documentType, directory, exportReply, properties).value.0;
            ParseFileName(name).Some? && ParseFileName(name).value.0 == surveyId
  {
    var e := ExportContents(surveyId, documentType, directory, exportReply, properties);
    if directory.None? {
      ParseFileNameOf(surveyId, documentType, None);
    } else {
      ParseFileNameOf(surveyId, documentType, Some(OwnerFullName(directory.value, properties).value));
    }
  }
}
