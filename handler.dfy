/** The request handler `main` from end to end: where the image address
    comes from, the order in which the steps write the response, and the
    three ways the handler answers. What the outside services do is an
    input, `Services`. */
module Handler {
  import opened Wrappers
  import opened Values
  import opened Receipt
  import opened JsonOut

  /** What `req.get_json()` gives: a ValueError, or the decoded body. */
  datatype Body = NotJson | JsonBody(value: PyValue)

  /** The request: the `imgUrl` query parameter, if given, and the body. */
  datatype Request = Request(query: Option<string>, body: Body)

  /** What the outside world does during one request. */
  datatype Services = Services(
    /** the exception line 44 (`unquote` of an address that is not a string)
        or lines 47-50 (fetching or decoding the image) raise */
    fetchError: Option<string>,
    /** the exception the preprocessing of lines 53-70 raises */
    preprocessError: Option<string>,
    /** the analysis of lines 76-87, or the exception it raises */
    analysis: Result<Analysis>,
    /** `str(uuid.uuid4())` */
    idOcr: string,
    /** the storage account name once the upload of lines 91-104 succeeds,
        or the exception it raises */
    upload: Result<string>,
    registry: string -> RegistryReply,
    classify: string -> ClassificationReply)

  /** The ways `main` ends. */
  datatype Outcome =
    | Text(status: int, text: string)
    | JsonReply(response: Record, body: Json)
    | Raised(message: string)

  /** The truth value `if v:` gives a value. */
  predicate Truthy(v: PyValue) {
    match v
    case PyNone => false
    case Bool(b) => b
    case Int(i) => i != 0
    case Float(r) => r != "0.0" && r != "-0.0"
    case Str(s) => s != []
    case Object(_, _) => true
    case Tuple(items) => items != []
    case List(items) => items != []
    case Dict(entries) => entries != []
  }

  /** The AttributeError of `.get` on a decoded body that is not a dict. */
  function NoAttributeGet(v: PyValue): string {
    "'" + TypeName(v) + "' object has no attribute 'get'"
  }

  /** Lines 33-40: the query parameter, unless it is missing or empty; then
      the body's `imgUrl`, when the body is JSON. */
  function ImageUrl(req: Request): (r: Result<PyValue>)
    ensures req.query.Some? && req.query.value != [] ==> r == Success(Str(req.query.value))
    ensures r.Failure? <==> (req.query.None? || req.query.value == []) && req.body.JsonBody? && !req.body.value.Dict?
    ensures (req.query.None? || req.query.value == []) && req.body.NotJson? ==> r.Success? && !Truthy(r.value)
    ensures (req.query.None? || req.query.value == []) && req.body.JsonBody? && req.body.value.Dict? ==>
      r == Success(if Get(req.body.value.entries, "imgUrl").Some? then Get(req.body.value.entries, "imgUrl").value else PyNone)
  {
    var q := if req.query.Some? then Str(req.query.value) else PyNone;
    if Truthy(q) then Success(q)
    else match req.body
      case NotJson => Success(q)
      case JsonBody(v) =>
        if !v.Dict? then Failure(NoAttributeGet(v))
        else Success(if Get(v.entries, "imgUrl").Some? then Get(v.entries, "imgUrl").value else PyNone)
  }

  /** Whether line 42 goes on to process an image. */
  predicate Proceeds(req: Request) {
    ImageUrl(req).Success? && Truthy(ImageUrl(req).value)
  }

  const UsageText: string :=
    "This HTTP triggered function executed successfully. Pass an imgUrl in the query string or in the request body for a personalized response.\n"

  /** Line 101: the address of the uploaded image. */
  function BlobUrl(account: string, idOcr: string): string {
    "https://" + account + ".blob.core.windows.net/imagens/" + idOcr + ".jpg"
  }

  /** Line 72. */
  function PreprocessWrites(error: Option<string>): Writes {
    if error.Some? then [("error", Str(error.value))] else []
  }

  /** Lines 101-104. */
  function UploadWrites(idOcr: string, upload: Result<string>): Writes {
    match upload
    case Success(account) => [("img_proc_url", Str(BlobUrl(account, idOcr)))]
    case Failure(m) => [("error", Str(m))]
  }

  /** Every assignment to `response` once the analysis has succeeded, in order. */
  function HandlerWrites(sv: Services, a: Analysis): Writes {
    PreprocessWrites(sv.preprocessError) + [("id_ocr", Str(sv.idOcr))] + UploadWrites(sv.idOcr, sv.upload)
      + EnrichmentWrites(a.content, sv.registry, sv.classify) + DocumentWrites(a.documents)
  }

  /** `main`: the answer, and the registry requests made. The response is
      the empty dict after every assignment of `HandlerWrites`, rendered as
      line 184 renders it: every stored pair becomes a two-element array. */
  method HandleRequest(req: Request, sv: Services) returns (outcome: Outcome, lookups: seq<Lookup>)
    ensures ImageUrl(req).Failure? ==> outcome == Raised(ImageUrl(req).error) && lookups == []
    ensures ImageUrl(req).Success? && !Truthy(ImageUrl(req).value) ==> outcome == Text(200, UsageText) && lookups == []
    ensures Proceeds(req) && sv.fetchError.Some? ==> outcome == Raised(sv.fetchError.value) && lookups == []
    ensures Proceeds(req) && sv.fetchError.None? && sv.analysis.Failure? ==>
      outcome == Text(400, sv.analysis.error) && lookups == []
    ensures Proceeds(req) && sv.fetchError.None? && sv.analysis.Success? ==>
      var a := sv.analysis.value;
      var response := AssignAll([], HandlerWrites(sv, a));
      var body := Dumps(Dict(response));
      && lookups == Lookups(a.content, sv.registry)
      && outcome == if body.Success? then JsonReply(response, body.value) else Raised(body.error)
  {
    lookups := [];
    var url := ImageUrl(req);
    if url.Failure? {
      outcome := Raised(url.error);
      return;
    }
    if !Truthy(url.value) {
      outcome := Text(200, UsageText);
      return;
    }
    if sv.fetchError.Some? {
      outcome := Raised(sv.fetchError.value);
      return;
    }
    var response: Record;
    ghost var ws: Writes;
    response, ws := Preprocess(sv.preprocessError);
    if sv.analysis.Failure? {
      outcome := Text(400, sv.analysis.error);
      return;
    }
    var a := sv.analysis.value;
    response, lookups := RecordAnalysis(response, ws, sv, a);
    var body := Dumps(Dict(response));
    outcome := if body.Success? then JsonReply(response, body.value) else Raised(body.error);
  }

  /** Lines 53-73 on the empty response. */
  method Preprocess(error: Option<string>) returns (response: Record, ghost ws: Writes)
    ensures ws == PreprocessWrites(error)
    ensures response == AssignAll([], ws)
  {
    response, ws := [], [];
    if error.Some? {
      response, ws := Put([], response, ws, "error", Str(error.value));
    }
  }

  /** Lines 89-181, once the analysis `a` has succeeded. */
  method RecordAnalysis(response: Record, ghost ws: Writes, sv: Services, a: Analysis)
    returns (r: Record, lookups: seq<Lookup>)
    requires ws == PreprocessWrites(sv.preprocessError)
    requires response == AssignAll([], ws)
    ensures r == AssignAll([], HandlerWrites(sv, a))
    ensures lookups == Lookups(a.content, sv.registry)
  {
    ghost var w := ws;
    r := response;
    r, w := Put([], r, w, "id_ocr", Str(sv.idOcr));
    match sv.upload {
      case Success(account) =>
        r, w := Put([], r, w, "img_proc_url", Str(BlobUrl(account, sv.idOcr)));
      case Failure(m) =>
        r, w := Put([], r, w, "error", Str(m));
    }
    assert w == ws + [("id_ocr", Str(sv.idOcr))] + UploadWrites(sv.idOcr, sv.upload);
    var enrichment := EnrichmentWrites(a.content, sv.registry, sv.classify);
    r, lookups := SearchAndEnrich(r, a.content, sv.registry, sv.classify);
    AssignAllThen([], w, enrichment);
    w := w + enrichment;
    r := CopyDocumentFields(r, a.documents);
    AssignAllThen([], w, DocumentWrites(a.documents));
  }

  /** The later of two writes wins. */
  function Latest(later: Option<PyValue>, earlier: Option<PyValue>): Option<PyValue> {
    if later.Some? then later else earlier
  }

  /** Where the last write to a key comes from, step by step. */
  lemma HandlerLast(sv: Services, a: Analysis, k: string)
    ensures LastWrite(HandlerWrites(sv, a), k) ==
      Latest(LastWrite(DocumentWrites(a.documents), k),
      Latest(LastWrite(EnrichmentWrites(a.content, sv.registry, sv.classify), k),
      Latest(LastWrite(UploadWrites(sv.idOcr, sv.upload), k),
      Latest(LastWrite([("id_ocr", Str(sv.idOcr))], k),
      LastWrite(PreprocessWrites(sv.preprocessError), k)))))
  {
    var p := PreprocessWrites(sv.preprocessError);
    var i := [("id_ocr", Str(sv.idOcr))];
    var u := UploadWrites(sv.idOcr, sv.upload);
    var e := EnrichmentWrites(a.content, sv.registry, sv.classify);
    LastWriteThen(p + i + u + e, DocumentWrites(a.documents), k);
    LastWriteThen(p + i + u, e, k);
    LastWriteThen(p + i, u, k);
    LastWriteThen(p, i, k);
  }

  /** The error slot is written by the preprocessing, the upload and the
      registry lookups, and each later write replaces the earlier one: the
      response reports the last failure. */
  lemma ErrorSlot(sv: Services, a: Analysis)
    ensures var enrichment := LastWrite(EnrichmentWrites(a.content, sv.registry, sv.classify), "error");
      Get(AssignAll([], HandlerWrites(sv, a)), "error") ==
        if enrichment.Some? then enrichment
        else if sv.upload.Failure? then Some(Str(sv.upload.error))
        else if sv.preprocessError.Some? then Some(Str(sv.preprocessError.value))
        else None
  {
    ErrorLast(sv, a);
    AssignAllGet([], HandlerWrites(sv, a), "error");
  }

  /** The last write to `error` over the whole request. */
  lemma ErrorLast(sv: Services, a: Analysis)
    ensures var enrichment := LastWrite(EnrichmentWrites(a.content, sv.registry, sv.classify), "error");
      LastWrite(HandlerWrites(sv, a), "error") ==
        if enrichment.Some? then enrichment
        else if sv.upload.Failure? then Some(Str(sv.upload.error))
        else if sv.preprocessError.Some? then Some(Str(sv.preprocessError.value))
        else None
  {
    HandlerLast(sv, a, "error");
    DocumentsWriteOnlyFields(a.documents, "error");
    LastWriteOne("id_ocr", Str(sv.idOcr), "error");
    UploadLast(sv.idOcr, sv.upload, "error");
    PreprocessLast(sv.preprocessError, "error");
  }

  lemma UploadLast(idOcr: string, upload: Result<string>, k: string)
    ensures LastWrite(UploadWrites(idOcr, upload), k) ==
      if upload.Success? && k == "img_proc_url" then Some(Str(BlobUrl(upload.value, idOcr)))
      else if upload.Failure? && k == "error" then Some(Str(upload.error))
      else None
  {
    match upload
    case Success(account) => LastWriteOne("img_proc_url", Str(BlobUrl(account, idOcr)), k);
    case Failure(m) => LastWriteOne("error", Str(m), k);
  }

  lemma PreprocessLast(error: Option<string>, k: string)
    ensures LastWrite(PreprocessWrites(error), k) == if error.Some? && k == "error" then Some(Str(error.value)) else None
  {
    if error.Some? {
      LastWriteOne("error", Str(error.value), k);
    }
  }

  /** The response always carries the request id. */
  lemma IdStored(sv: Services, a: Analysis)
    ensures Get(AssignAll([], HandlerWrites(sv, a)), "id_ocr") == Some(Str(sv.idOcr))
  {
    UploadLast(sv.idOcr, sv.upload, "id_ocr");
    LastWriteOne("id_ocr", Str(sv.idOcr), "id_ocr");
    KeptKey(sv, a, "id_ocr");
  }

  /** The response carries the address of the stored image exactly when
      the upload succeeded. */
  lemma ImageAddressStored(sv: Services, a: Analysis)
    ensures Get(AssignAll([], HandlerWrites(sv, a)), "img_proc_url") ==
      if sv.upload.Success? then Some(Str(BlobUrl(sv.upload.value, sv.idOcr))) else None
  {
    UploadLast(sv.idOcr, sv.upload, "img_proc_url");
    PreprocessLast(sv.preprocessError, "img_proc_url");
    LastWriteOne("id_ocr", Str(sv.idOcr), "img_proc_url");
    KeptKey(sv, a, "img_proc_url");
  }

  /** A key only the first steps write. */
  lemma KeptKey(sv: Services, a: Analysis, k: string)
    requires k !in {"tipo_pagamento", "moeda", "cnpj", "cidade", "tipo", "tip", "error"}
    requires k !in FieldKeys
    ensures Get(AssignAll([], HandlerWrites(sv, a)), k) ==
      Latest(LastWrite(UploadWrites(sv.idOcr, sv.upload), k),
      Latest(LastWrite([("id_ocr", Str(sv.idOcr))], k),
      LastWrite(PreprocessWrites(sv.preprocessError), k)))
  {
    EnrichmentWritesOnly(a.content, sv.registry, sv.classify, k);
    DocumentsWriteOnlyFields(a.documents, k);
    HandlerLast(sv, a, k);
    AssignAllGet([], HandlerWrites(sv, a), k);
  }

  /** A key the last document writes holds that write in the response. */
  lemma LastDocumentStored(sv: Services, a: Analysis, k: string)
    requires a.documents != []
    requires LastWrite(FieldEntries(a.documents[|a.documents| - 1]), k).Some?
    ensures Get(AssignAll([], HandlerWrites(sv, a)), k) == LastWrite(FieldEntries(a.documents[|a.documents| - 1]), k)
  {
    HandlerLast(sv, a, k);
    LastDocumentWins(a.documents, k);
    AssignAllGet([], HandlerWrites(sv, a), k);
  }

  /** With at least one document the response holds pairs, so the reply of
      line 184 is not the one the encoder was written for. */
  lemma ReplyNotAsIntended(sv: Services, a: Analysis)
    requires a.documents != []
    ensures var response := AssignAll([], HandlerWrites(sv, a));
      Dumps(Dict(response)).Success? ==> Dumps(Dict(response)) != DumpsWithPairs(Dict(response))
  {
    var response := AssignAll([], HandlerWrites(sv, a));
    var d := a.documents[|a.documents| - 1];
    FieldEntriesLast(d, "total");
    LastDocumentStored(sv, a, "total");
    var i :| 0 <= i < |response| && response[i] == ("total", FieldPair(d, "Total"));
    if Dumps(Dict(response)).Success? {
      DictWithTupleDumpedAsWritten(response, i);
    }
  }

  /** With no documents none of the five field keys is in the response. */
  lemma NoDocumentsNoFields(sv: Services, a: Analysis, k: string)
    requires a.documents == [] && k in FieldKeys
    ensures Get(AssignAll([], HandlerWrites(sv, a)), k).None?
  {
    FieldKeysApart(k);
    HandlerLast(sv, a, k);
    EnrichmentWritesOnly(a.content, sv.registry, sv.classify, k);
    UploadLast(sv.idOcr, sv.upload, k);
    PreprocessLast(sv.preprocessError, k);
    LastWriteOne("id_ocr", Str(sv.idOcr), k);
    AssignAllGet([], HandlerWrites(sv, a), k);
  }

  /** The five field keys are none of the keys the earlier steps write. */
  lemma FieldKeysApart(k: string)
    requires k in FieldKeys
    ensures k !in {"tipo_pagamento", "moeda", "cnpj", "cidade", "tipo", "tip", "error"}
    ensures k != "img_proc_url" && k != "id_ocr"
  {
  }

  /** The response is a dict whose first key is the preprocessing error,
      if there was one, and otherwise the request id. */
  lemma ResponseStart(sv: Services, a: Analysis)
    ensures var out := AssignAll([], HandlerWrites(sv, a));
      && NoDuplicateKeys(out)
      && |out| > 0 && out[0].0 == (if sv.preprocessError.Some? then "error" else "id_ocr")
  {
    var p := PreprocessWrites(sv.preprocessError);
    var early := p + [("id_ocr", Str(sv.idOcr))];
    var u := early + UploadWrites(sv.idOcr, sv.upload);
    var e := u + EnrichmentWrites(a.content, sv.registry, sv.classify);
    AssignAllThen([], e, DocumentWrites(a.documents));
    AssignAllThen([], u, EnrichmentWrites(a.content, sv.registry, sv.classify));
    AssignAllThen([], early, UploadWrites(sv.idOcr, sv.upload));
    AssignAllSnoc([], p, "id_ocr", Str(sv.idOcr));
    if sv.preprocessError.Some? {
      AssignAllSnoc([], [], "error", Str(sv.preprocessError.value));
    }
  }
}
