/** The request handler `main`: it reads the image address from the
    request, and for a receipt already analysed builds the response dict
    step by step. The image fetch, the preprocessing, the receipt analysis,
    the blob upload and the two registry services are outside the model:
    what they return, or the exception they raise, is an input. */
module Receipt {
  import opened Wrappers
  import opened Values
  import opened TextPatterns

  // ---------------------------------------------------------------------
  // What the outside world hands to the handler

  /** A recognised field: its `.value` and its `.confidence`. */
  datatype Field = Field(value: Scalar, confidence: Scalar)

  /** One analysed receipt: `receipt.fields`, by field name. */
  datatype Document = Document(fields: map<string, Field>)

  /** The analysis result: its recognised text and its documents. */
  datatype Analysis = Analysis(content: string, documents: seq<Document>)

  /** What `cnpj_re.json()` and the lookups into it give on a 200 reply. */
  datatype RegistryRecord =
      /** `.json()` or `['estabelecimento']['cidade']['nome']` raised */
    | RecordUnreadable(message: string)
      /** the city was read, then `['atividade_principal']['divisao']` or
          the address concatenation raised */
    | CityWithoutDivision(city: PyValue, message: string)
    | CityAndDivision(city: PyValue, division: string)

  /** The registry request: raised, or answered with a status. */
  datatype RegistryReply =
    | RegistryUnreachable(message: string)
    | RegistryAnswer(status: int, record: RegistryRecord)

  /** What `tipo_re.json()['descricao']` gives on a 200 reply. */
  datatype Description =
    | DescriptionUnreadable(message: string)
    | DescriptionText(text: PyValue)

  /** The activity-classification request: raised, or answered. */
  datatype ClassificationReply =
    | ClassificationUnreachable(message: string)
    | ClassificationAnswer(status: int, description: Description)

  /** A request the handler makes, with the key it appends to the address. */
  datatype Lookup = RegistryQuery(key: string) | ClassificationQuery(division: string)

  const NotFound: string := "CNPJ n\U{E3}o encontrado"

  /** The AttributeError raised by `tipo_re.status_code` once `tipo_re` is
      the parsed reply, a dict. */
  const StatusCodeMissing: string := "'dict' object has no attribute 'status_code'"

  // ---------------------------------------------------------------------
  // Lines 106-143: pattern extraction and the registry lookups

  /** The assignments lines 111-143 make, in order. */
  function EnrichmentWrites(content: string, registry: string -> RegistryReply,
                            classify: string -> ClassificationReply): Writes
  {
    var base := BaseWrites(content);
    match FindCnpj(content)
    case None => base + ClearedWrites
    case Some(number) =>
      var key := StripPunctuation(number);
      base + [("cnpj", Str(number))] + RegistryWrites(key, registry(key), classify)
  }

  /** Lines 111-115: the payment method and the currency. */
  function BaseWrites(content: string): Writes {
    [("tipo_pagamento", Str(PaymentMethod(content))), ("moeda", Str(Currency(content)))]
  }

  /** Lines 138-141: what `if not cnpj` clears. */
  const ClearedWrites: Writes := [("cnpj", Str("")), ("cidade", Str("")), ("tipo", Str(""))]

  /** Lines 123-143 once the registry has answered `reply` for `key`: the
      assignments of the branches taken, then the clearing of line 138 if
      the local `cnpj` is falsy there, or the error of an exception. The
      parsed record is a non-empty dict, so only an empty key is falsy. */
  function RegistryWrites(key: string, reply: RegistryReply, classify: string -> ClassificationReply): Writes {
    match reply
    case RegistryUnreachable(m) => [("error", Str(m))]
    case RegistryAnswer(status, record) =>
      if status != 200 then [("error", Str(NotFound))] + (if key == [] then ClearedWrites else [])
      else RecordWrites(record, classify)
  }

  /** Lines 125-135 once a 200 reply has been parsed into `record`. */
  function RecordWrites(record: RegistryRecord, classify: string -> ClassificationReply): Writes {
    match record
    case RecordUnreadable(m) => [("error", Str(m))]
    case CityWithoutDivision(city, m) => [("cidade", city), ("error", Str(m))]
    case CityAndDivision(city, division) => [("cidade", city)] + ClassificationWrites(classify(division))
  }

  /** Lines 129-135: the assignments the classification reply leads to. */
  function ClassificationWrites(reply: ClassificationReply): Writes {
    match reply
    case ClassificationUnreachable(m) => [("error", Str(m))]
    case ClassificationAnswer(status, description) =>
      if status != 200 then [("tip", Str(""))]
      else match description
        case DescriptionUnreadable(m) => [("error", Str(m))]
        case DescriptionText(t) => [("tipo", t), ("error", Str(StatusCodeMissing))]
  }

  /** The requests lines 123-130 make, in order. */
  function Lookups(content: string, registry: string -> RegistryReply): (r: seq<Lookup>)
    ensures |r| <= 2
  {
    match FindCnpj(content)
    case None => []
    case Some(number) =>
      var key := StripPunctuation(number);
      [RegistryQuery(key)] + ClassificationLookups(registry(key))
  }

  /** The requests once a number is found: its key, then what the reply
      leads to. */
  lemma LookupsOfNumber(content: string, registry: string -> RegistryReply)
    requires FindCnpj(content).Some?
    ensures var key := StripPunctuation(FindCnpj(content).value);
      Lookups(content, registry) == [RegistryQuery(key)] + ClassificationLookups(registry(key))
  {
  }

  /** The classification request a registry reply leads to, if any. */
  function ClassificationLookups(reply: RegistryReply): (r: seq<Lookup>)
    ensures |r| <= 1
  {
    if reply.RegistryAnswer? && reply.status == 200 && reply.record.CityAndDivision? then
      [ClassificationQuery(reply.record.division)]
    else []
  }

  /** `response` updated as lines 111-143 update it; every exception the
      block can raise ends it with its text in `error`. Also returns the
      requests made. */
  method SearchAndEnrich(response: Record, content: string, registry: string -> RegistryReply,
                         classify: string -> ClassificationReply) returns (r: Record, lookups: seq<Lookup>)
    ensures r == AssignAll(response, EnrichmentWrites(content, registry, classify))
    ensures lookups == Lookups(content, registry)
  {
    ghost var ws: Writes := [];
    r := response;
    r, ws := Put(response, r, ws, "tipo_pagamento", Str(PaymentMethod(content)));
    r, ws := Put(response, r, ws, "moeda", Str(Currency(content)));
    ghost var base := ws;
    assert base == BaseWrites(content);
    var found := FindCnpj(content);
    if found.Some? {
      r, ws := Put(response, r, ws, "cnpj", Str(found.value));
      var key := StripPunctuation(found.value);
      var more;
      r, ws, more := QueryRegistry(response, r, ws, key, registry, classify);
      lookups := [RegistryQuery(key)] + more;
      assert ws == base + [("cnpj", Str(found.value))] + RegistryWrites(key, registry(key), classify);
    } else {
      // `cnpj` is None
      r, ws := Put(response, r, ws, "cnpj", Str(""));
      r, ws := Put(response, r, ws, "cidade", Str(""));
      r, ws := Put(response, r, ws, "tipo", Str(""));
      lookups := [];
      ThreeMore(base, ClearedWrites);
    }
    assert ws == EnrichmentWrites(content, registry, classify);
  }

  /** Lines 123-143 from the registry request on, for the stripped `key`.
      Returns the classification request made, if any. */
  method QueryRegistry(ghost response: Record, r: Record, ghost ws: Writes, key: string,
                       registry: string -> RegistryReply, classify: string -> ClassificationReply)
    returns (r': Record, ghost ws': Writes, lookups: seq<Lookup>)
    requires r == AssignAll(response, ws)
    ensures ws' == ws + RegistryWrites(key, registry(key), classify)
    ensures r' == AssignAll(response, ws')
    ensures lookups == ClassificationLookups(registry(key))
  {
    r', ws', lookups := r, ws, [];
    var reply := registry(key);
    if reply.RegistryUnreachable? {
      r', ws' := Put(response, r', ws', "error", Str(reply.message));
      assert ws' == ws + RegistryWrites(key, reply, classify);
      return;
    }
    if reply.status == 200 {
      r', ws', lookups := QueryRecord(response, r', ws', reply.record, classify);
    } else {
      r', ws' := Put(response, r', ws', "error", Str(NotFound));
      // `cnpj` still holds the stripped key
      if key == [] {
        ghost var before := ws';
        r', ws' := Put(response, r', ws', "cnpj", Str(""));
        r', ws' := Put(response, r', ws', "cidade", Str(""));
        r', ws' := Put(response, r', ws', "tipo", Str(""));
        AppendAssoc(ws, [("error", Str(NotFound))], ClearedWrites);
        ThreeMore(before, ClearedWrites);
      }
      assert ws' == ws + RegistryWrites(key, reply, classify);
    }
  }

  /** Lines 125-135 for the parsed record of a 200 reply. Returns the
      classification request made, if any. */
  method QueryRecord(ghost response: Record, r: Record, ghost ws: Writes, record: RegistryRecord,
                     classify: string -> ClassificationReply)
    returns (r': Record, ghost ws': Writes, lookups: seq<Lookup>)
    requires r == AssignAll(response, ws)
    ensures ws' == ws + RecordWrites(record, classify)
    ensures r' == AssignAll(response, ws')
    ensures lookups == if record.CityAndDivision? then [ClassificationQuery(record.division)] else []
  {
    r', ws', lookups := r, ws, [];
    match record
    case RecordUnreadable(m) =>
      r', ws' := Put(response, r', ws', "error", Str(m));
    case CityWithoutDivision(city, m) =>
      r', ws' := Put(response, r', ws', "cidade", city);
      r', ws' := Put(response, r', ws', "error", Str(m));
    case CityAndDivision(city, division) =>
      r', ws' := Put(response, r', ws', "cidade", city);
      lookups := [ClassificationQuery(division)];
      r', ws' := QueryClassification(response, r', ws', classify(division));
      AppendAssoc(ws, [("cidade", city)], ClassificationWrites(classify(division)));
      // `cnpj` now holds the parsed record, a non-empty dict
  }

  /** Lines 130-135 for the classification reply `reply`. */
  method QueryClassification(ghost response: Record, r: Record, ghost ws: Writes, reply: ClassificationReply)
    returns (r': Record, ghost ws': Writes)
    requires r == AssignAll(response, ws)
    ensures ws' == ws + ClassificationWrites(reply)
    ensures r' == AssignAll(response, ws')
  {
    r', ws' := r, ws;
    if reply.ClassificationUnreachable? {
      r', ws' := Put(response, r', ws', "error", Str(reply.message));
      return;
    }
    if reply.status == 200 {
      match reply.description
      case DescriptionUnreadable(m) =>
        r', ws' := Put(response, r', ws', "error", Str(m));
      case DescriptionText(t) =>
        r', ws' := Put(response, r', ws', "tipo", t);
        // line 134 reads `.status_code` on the parsed dict
        r', ws' := Put(response, r', ws', "error", Str(StatusCodeMissing));
    } else {
      r', ws' := Put(response, r', ws', "tip", Str(""));
    }
  }

  /** `r[k] = v`, keeping track of the assignments made since `response`. */
  method Put(ghost response: Record, r: Record, ghost ws: Writes, k: string, v: PyValue)
    returns (r': Record, ghost ws': Writes)
    requires r == AssignAll(response, ws)
    ensures ws' == ws + [(k, v)]
    ensures r' == AssignAll(response, ws')
  {
    AssignAllSnoc(response, ws, k, v);
    r', ws' := Assign(r, k, v), ws + [(k, v)];
  }

  /** Appending is associative. */
  lemma AppendAssoc<T>(a: seq<T>, b: seq<T>, c: seq<T>)
    ensures (a + b) + c == a + (b + c)
  {
  }

  /** Three single assignments in a row are the run of all three. */
  lemma ThreeMore(before: Writes, e: Writes)
    requires |e| == 3
    ensures before + [e[0]] + [e[1]] + [e[2]] == before + e
  {
    assert e == [e[0], e[1], e[2]];
  }

  /** The stripped key of a found number is never empty. */
  lemma LayoutKeyNonEmpty(number: string)
    requires IsCnpjKey(StripPunctuation(number))
    ensures StripPunctuation(number) != []
  {
  }

  // ---------------------------------------------------------------------
  // What lines 106-143 leave in the response

  /** The last write to a key among two writes. */
  lemma LastOfTwo(a: (string, PyValue), b: (string, PyValue), k: string)
    ensures LastWrite([a, b], k) == if b.0 == k then Some(b.1) else if a.0 == k then Some(a.1) else None
  {
    assert [a, b] == [a] + [b];
    LastWriteThen([a], [b], k);
    LastWriteOne(a.0, a.1, k);
    LastWriteOne(b.0, b.1, k);
  }

  /** The last write to a key among three writes. */
  lemma LastOfThree(a: (string, PyValue), b: (string, PyValue), c: (string, PyValue), k: string)
    ensures LastWrite([a, b, c], k) ==
      if c.0 == k then Some(c.1) else if b.0 == k then Some(b.1) else if a.0 == k then Some(a.1) else None
  {
    assert [a, b, c] == [a] + [b, c];
    LastWriteThen([a], [b, c], k);
    LastWriteOne(a.0, a.1, k);
    LastOfTwo(b, c, k);
  }

  /** Lines 139-141 write the empty string to the three keys and nothing else. */
  lemma ClearedLast(k: string)
    ensures LastWrite(ClearedWrites, k) == if k == "cnpj" || k == "cidade" || k == "tipo" then Some(Str("")) else None
  {
    LastOfThree(("cnpj", Str("")), ("cidade", Str("")), ("tipo", Str("")), k);
  }

  /** Lines 111-115 write the payment method and the currency. */
  lemma BaseLast(content: string, k: string)
    ensures LastWrite(BaseWrites(content), k) ==
      if k == "moeda" then Some(Str(Currency(content)))
      else if k == "tipo_pagamento" then Some(Str(PaymentMethod(content)))
      else None
  {
    LastOfTwo(("tipo_pagamento", Str(PaymentMethod(content))), ("moeda", Str(Currency(content))), k);
  }

  /** Where the last write to a key among lines 111-143 comes from. */
  lemma EnrichmentLast(content: string, registry: string -> RegistryReply,
                       classify: string -> ClassificationReply, k: string)
    ensures FindCnpj(content).None? ==> (LastWrite(EnrichmentWrites(content, registry, classify), k) ==
      if k == "cnpj" || k == "cidade" || k == "tipo" then Some(Str("")) else LastWrite(BaseWrites(content), k))
    ensures FindCnpj(content).Some? ==>
      var number := FindCnpj(content).value;
      var key := StripPunctuation(number);
      var later := LastWrite(RegistryWrites(key, registry(key), classify), k);
      LastWrite(EnrichmentWrites(content, registry, classify), k) ==
        if later.Some? then later
        else if k == "cnpj" then Some(Str(number))
        else LastWrite(BaseWrites(content), k)
  {
    var base := BaseWrites(content);
    match FindCnpj(content)
    case None =>
      LastWriteThen(base, ClearedWrites, k);
      ClearedLast(k);
    case Some(number) =>
      var key := StripPunctuation(number);
      var rw := RegistryWrites(key, registry(key), classify);
      AppendAssoc(base, [("cnpj", Str(number))], rw);
      LastWriteThen(base, [("cnpj", Str(number))] + rw, k);
      LastWriteThen([("cnpj", Str(number))], rw, k);
      LastWriteOne("cnpj", Str(number), k);
  }

  /** After line 115 the payment method and the currency are never written
      again: the response holds what the two searches found. */
  lemma PaymentAndCurrencyKept(response: Record, content: string, registry: string -> RegistryReply,
                               classify: string -> ClassificationReply)
    ensures var out := AssignAll(response, EnrichmentWrites(content, registry, classify));
      && Get(out, "tipo_pagamento") == Some(Str(PaymentMethod(content)))
      && Get(out, "moeda") == Some(Str(Currency(content)))
  {
    var ws := EnrichmentWrites(content, registry, classify);
    KeptKey(response, content, registry, classify, "tipo_pagamento");
    KeptKey(response, content, registry, classify, "moeda");
    BaseLast(content, "tipo_pagamento");
    BaseLast(content, "moeda");
  }

  /** A key the lookups never write keeps the value of lines 111-115. */
  lemma KeptKey(response: Record, content: string, registry: string -> RegistryReply,
                classify: string -> ClassificationReply, k: string)
    requires k != "error" && k != "cidade" && k != "tipo" && k != "tip" && k != "cnpj"
    ensures Get(AssignAll(response, EnrichmentWrites(content, registry, classify)), k) ==
      if LastWrite(BaseWrites(content), k).Some? then LastWrite(BaseWrites(content), k) else Get(response, k)
  {
    EnrichmentLast(content, registry, classify, k);
    if FindCnpj(content).Some? {
      var key := StripPunctuation(FindCnpj(content).value);
      RegistryNeverWrites(key, registry(key), classify, k);
    }
    AssignAllGet(response, EnrichmentWrites(content, registry, classify), k);
  }

  /** Lines 111-143 write only their seven keys. */
  lemma EnrichmentWritesOnly(content: string, registry: string -> RegistryReply,
                             classify: string -> ClassificationReply, k: string)
    requires k !in {"tipo_pagamento", "moeda", "cnpj", "cidade", "tipo", "tip", "error"}
    ensures LastWrite(EnrichmentWrites(content, registry, classify), k) == None
  {
    EnrichmentLast(content, registry, classify, k);
    BaseLast(content, k);
    if FindCnpj(content).Some? {
      var key := StripPunctuation(FindCnpj(content).value);
      RegistryNeverWrites(key, registry(key), classify, k);
    }
  }

  /** A key after lines 111-143: where its last write comes from, or its
      old value. */
  lemma EnrichedKey(response: Record, content: string, registry: string -> RegistryReply,
                    classify: string -> ClassificationReply, k: string)
    ensures var last := LastWrite(EnrichmentWrites(content, registry, classify), k);
      Get(AssignAll(response, EnrichmentWrites(content, registry, classify)), k) ==
        if last.Some? then last else Get(response, k)
  {
    AssignAllGet(response, EnrichmentWrites(content, registry, classify), k);
  }

  /** With no number in the text no request is made, the answers of the
      services do not matter, and lines 138-141 clear the three keys; the
      error slot keeps what an earlier step put there. */
  lemma NoNumberClears(response: Record, content: string, registry: string -> RegistryReply,
                       classify: string -> ClassificationReply, registry': string -> RegistryReply,
                       classify': string -> ClassificationReply)
    requires FindCnpj(content).None?
    ensures Lookups(content, registry) == []
    ensures EnrichmentWrites(content, registry, classify) == EnrichmentWrites(content, registry', classify')
    ensures var out := AssignAll(response, EnrichmentWrites(content, registry, classify));
      && Get(out, "cnpj") == Some(Str("")) && Get(out, "cidade") == Some(Str(""))
      && Get(out, "tipo") == Some(Str("")) && Get(out, "error") == Get(response, "error")
  {
    EnrichedKey(response, content, registry, classify, "cnpj");
    EnrichmentLast(content, registry, classify, "cnpj");
    EnrichedKey(response, content, registry, classify, "cidade");
    EnrichmentLast(content, registry, classify, "cidade");
    EnrichedKey(response, content, registry, classify, "tipo");
    EnrichmentLast(content, registry, classify, "tipo");
    EnrichedKey(response, content, registry, classify, "error");
    EnrichmentLast(content, registry, classify, "error");
    BaseLast(content, "error");
  }

  /** A found number is stored as matched, and it is the stripped number
      that is looked up in the registry: a 14-digit key. A classification
      request follows only a readable 200 reply. */
  lemma NumberLookedUp(response: Record, content: string, registry: string -> RegistryReply,
                       classify: string -> ClassificationReply)
    requires FindCnpj(content).Some?
    ensures var key := StripPunctuation(FindCnpj(content).value);
      && IsCnpjKey(key)
      && Lookups(content, registry) == [RegistryQuery(key)] + ClassificationLookups(registry(key))
      && Get(AssignAll(response, EnrichmentWrites(content, registry, classify)), "cnpj") == Some(Str(FindCnpj(content).value))
  {
    var key := StripPunctuation(FindCnpj(content).value);
    LayoutKeyNonEmpty(FindCnpj(content).value);
    CnpjKept(key, registry(key), classify);
    EnrichmentLast(content, registry, classify, "cnpj");
    AssignAllGet(response, EnrichmentWrites(content, registry, classify), "cnpj");
  }

  /** Once a number is found, only an empty key could make line 138 clear it. */
  lemma CnpjKept(key: string, reply: RegistryReply, classify: string -> ClassificationReply)
    requires key != []
    ensures LastWrite(RegistryWrites(key, reply, classify), "cnpj") == None
  {
    RegistryNeverWrites(key, reply, classify, "cnpj");
  }

  /** As written, the cnpj ends up empty exactly when the text holds no
      number: a failed registry lookup keeps the number. */
  lemma CnpjClearedIffNoNumber(response: Record, content: string, registry: string -> RegistryReply,
                               classify: string -> ClassificationReply)
    ensures Get(AssignAll(response, EnrichmentWrites(content, registry, classify)), "cnpj") == Some(Str(""))
      <==> FindCnpj(content).None?
  {
    if FindCnpj(content).Some? {
      NumberLookedUp(response, content, registry, classify);
      assert |FindCnpj(content).value| >= 14;
    } else {
      NoNumberClears(response, content, registry, classify, registry, classify);
    }
  }

  /** A reply other than 200 from the registry: the number stays, `error`
      says it was not found, and the city and the activity are not touched. */
  lemma RegistryMissReported(response: Record, content: string, registry: string -> RegistryReply,
                             classify: string -> ClassificationReply)
    requires FindCnpj(content).Some?
    requires var reply := registry(StripPunctuation(FindCnpj(content).value));
      reply.RegistryAnswer? && reply.status != 200
    ensures var out := AssignAll(response, EnrichmentWrites(content, registry, classify));
      && Get(out, "error") == Some(Str(NotFound))
      && Get(out, "cidade") == Get(response, "cidade")
      && Get(out, "tipo") == Get(response, "tipo")
      && Get(out, "tip") == Get(response, "tip")
    ensures Lookups(content, registry) == [RegistryQuery(StripPunctuation(FindCnpj(content).value))]
  {
    var number := FindCnpj(content).value;
    var key := StripPunctuation(number);
    LayoutKeyNonEmpty(number);
    LookupsOfNumber(content, registry);
    var rw := RegistryWrites(key, registry(key), classify);
    assert rw == [("error", Str(NotFound))];
    forall k | k in ["error", "cidade", "tipo", "tip"]
      ensures LastWrite(rw, k) == if k == "error" then Some(Str(NotFound)) else None
    {
      LastWriteOne("error", Str(NotFound), k);
    }
    EnrichedKey(response, content, registry, classify, "error");
    EnrichmentLast(content, registry, classify, "error");
    EnrichedKey(response, content, registry, classify, "cidade");
    EnrichmentLast(content, registry, classify, "cidade");
    EnrichedKey(response, content, registry, classify, "tipo");
    EnrichmentLast(content, registry, classify, "tipo");
    EnrichedKey(response, content, registry, classify, "tip");
    EnrichmentLast(content, registry, classify, "tip");
    BaseLast(content, "cidade");
    BaseLast(content, "tipo");
    BaseLast(content, "tip");
  }

  /** A 200 classification reply with a description: line 133 stores it,
      and line 134 then raises, so `error` holds the AttributeError. */
  lemma ClassifiedThenRaises(response: Record, content: string, registry: string -> RegistryReply,
                             classify: string -> ClassificationReply, city: PyValue, division: string, t: PyValue)
    requires FindCnpj(content).Some?
    requires registry(StripPunctuation(FindCnpj(content).value)) == RegistryAnswer(200, CityAndDivision(city, division))
    requires classify(division) == ClassificationAnswer(200, DescriptionText(t))
    ensures var out := AssignAll(response, EnrichmentWrites(content, registry, classify));
      && Get(out, "cidade") == Some(city)
      && Get(out, "tipo") == Some(t)
      && Get(out, "error") == Some(Str(StatusCodeMissing))
    ensures Lookups(content, registry) ==
      [RegistryQuery(StripPunctuation(FindCnpj(content).value)), ClassificationQuery(division)]
  {
    LookupsOfNumber(content, registry);
    ClassifiedStored(response, content, registry, classify, city, division, t);
  }

  /** The three values stored after a readable 200 registry reply and a 200
      classification reply. */
  lemma ClassifiedStored(response: Record, content: string, registry: string -> RegistryReply,
                         classify: string -> ClassificationReply, city: PyValue, division: string, t: PyValue)
    requires FindCnpj(content).Some?
    requires registry(StripPunctuation(FindCnpj(content).value)) == RegistryAnswer(200, CityAndDivision(city, division))
    requires classify(division) == ClassificationAnswer(200, DescriptionText(t))
    ensures var out := AssignAll(response, EnrichmentWrites(content, registry, classify));
      && Get(out, "cidade") == Some(city)
      && Get(out, "tipo") == Some(t)
      && Get(out, "error") == Some(Str(StatusCodeMissing))
  {
    var key := StripPunctuation(FindCnpj(content).value);
    ClassifiedRun(key, registry(key), classify, city, division, t);
    LastOfThree(("cidade", city), ("tipo", t), ("error", Str(StatusCodeMissing)), "cidade");
    LastOfThree(("cidade", city), ("tipo", t), ("error", Str(StatusCodeMissing)), "tipo");
    LastOfThree(("cidade", city), ("tipo", t), ("error", Str(StatusCodeMissing)), "error");
    RegistryKeyHolds(response, content, registry, classify, "cidade", city);
    RegistryKeyHolds(response, content, registry, classify, "tipo", t);
    RegistryKeyHolds(response, content, registry, classify, "error", Str(StatusCodeMissing));
  }

  /** A key whose last registry write is `v` holds `v` after the block. */
  lemma RegistryKeyHolds(response: Record, content: string, registry: string -> RegistryReply,
                         classify: string -> ClassificationReply, k: string, v: PyValue)
    requires FindCnpj(content).Some?
    requires var key := StripPunctuation(FindCnpj(content).value);
      LastWrite(RegistryWrites(key, registry(key), classify), k) == Some(v)
    ensures Get(AssignAll(response, EnrichmentWrites(content, registry, classify)), k) == Some(v)
  {
    RegistryKeyLast(response, content, registry, classify, k);
  }

  /** The assignments of a 200 registry reply followed by a 200
      classification reply with a description. */
  lemma ClassifiedRun(key: string, reply: RegistryReply, classify: string -> ClassificationReply,
                      city: PyValue, division: string, t: PyValue)
    requires reply == RegistryAnswer(200, CityAndDivision(city, division))
    requires classify(division) == ClassificationAnswer(200, DescriptionText(t))
    ensures RegistryWrites(key, reply, classify) == [("cidade", city), ("tipo", t), ("error", Str(StatusCodeMissing))]
  {
  }

  /** A key the registry branch writes ends up holding its last write there. */
  lemma RegistryKeyLast(response: Record, content: string, registry: string -> RegistryReply,
                        classify: string -> ClassificationReply, k: string)
    requires FindCnpj(content).Some?
    ensures var key := StripPunctuation(FindCnpj(content).value);
      var later := LastWrite(RegistryWrites(key, registry(key), classify), k);
      later.Some? ==> Get(AssignAll(response, EnrichmentWrites(content, registry, classify)), k) == later
  {
    EnrichedKey(response, content, registry, classify, k);
    EnrichmentLast(content, registry, classify, k);
  }

  /** A classification reply other than 200: line 135 writes the key `tip`,
      not `tipo`, and no error is raised. */
  lemma ClassificationMissWritesTip(response: Record, content: string, registry: string -> RegistryReply,
                                    classify: string -> ClassificationReply, city: PyValue, division: string)
    requires FindCnpj(content).Some?
    requires registry(StripPunctuation(FindCnpj(content).value)) == RegistryAnswer(200, CityAndDivision(city, division))
    requires classify(division).ClassificationAnswer? && classify(division).status != 200
    ensures var out := AssignAll(response, EnrichmentWrites(content, registry, classify));
      && Get(out, "cidade") == Some(city)
      && Get(out, "tip") == Some(Str(""))
      && Get(out, "tipo") == Get(response, "tipo")
      && Get(out, "error") == Get(response, "error")
  {
    var key := StripPunctuation(FindCnpj(content).value);
    var rw := RegistryWrites(key, registry(key), classify);
    assert rw == [("cidade", city), ("tip", Str(""))];
    forall k | k in ["cidade", "tip", "tipo", "error"]
      ensures LastWrite(rw, k) == if k == "cidade" then Some(city) else if k == "tip" then Some(Str("")) else None
    {
      LastOfTwo(("cidade", city), ("tip", Str("")), k);
    }
    EnrichedKey(response, content, registry, classify, "cidade");
    EnrichmentLast(content, registry, classify, "cidade");
    EnrichedKey(response, content, registry, classify, "tip");
    EnrichmentLast(content, registry, classify, "tip");
    EnrichedKey(response, content, registry, classify, "tipo");
    EnrichmentLast(content, registry, classify, "tipo");
    EnrichedKey(response, content, registry, classify, "error");
    EnrichmentLast(content, registry, classify, "error");
    BaseLast(content, "tipo");
    BaseLast(content, "error");
  }

  /** The registry branch writes only `error`, `cidade`, `tipo`, `tip`, and
      `cnpj` only when the key is empty. */
  lemma RegistryNeverWrites(key: string, reply: RegistryReply, classify: string -> ClassificationReply, k: string)
    requires k != "error" && k != "cidade" && k != "tipo" && k != "tip"
    requires k != "cnpj" || key != []
    ensures LastWrite(RegistryWrites(key, reply, classify), k) == None
  {
    match reply
    case RegistryUnreachable(m) =>
      LastWriteOne("error", Str(m), k);
    case RegistryAnswer(status, record) =>
      if status != 200 {
        if key == [] {
          LastWriteThen([("error", Str(NotFound))], ClearedWrites, k);
          ClearedLast(k);
        } else {
          assert [("error", Str(NotFound))] + [] == [("error", Str(NotFound))];
        }
        LastWriteOne("error", Str(NotFound), k);
      } else {
        match record
        case RecordUnreadable(m) =>
          LastWriteOne("error", Str(m), k);
        case CityWithoutDivision(city, m) =>
          LastOfTwo(("cidade", city), ("error", Str(m)), k);
        case CityAndDivision(city, division) =>
          LastWriteThen([("cidade", city)], ClassificationWrites(classify(division)), k);
          LastWriteOne("cidade", city, k);
          ClassificationNeverWrites(classify(division), k);
      }
  }

  /** The classification branch writes only `error`, `tipo` and `tip`. */
  lemma ClassificationNeverWrites(reply: ClassificationReply, k: string)
    requires k != "error" && k != "tipo" && k != "tip"
    ensures LastWrite(ClassificationWrites(reply), k) == None
  {
    match reply
    case ClassificationUnreachable(m) =>
      LastWriteOne("error", Str(m), k);
    case ClassificationAnswer(status, description) =>
      if status != 200 {
        LastWriteOne("tip", Str(""), k);
      } else {
        match description
        case DescriptionUnreadable(m) =>
          LastWriteOne("error", Str(m), k);
        case DescriptionText(t) =>
          LastOfTwo(("tipo", t), ("error", Str(StatusCodeMissing)), k);
      }
  }

  // ---------------------------------------------------------------------
  // Lines 145-181: copying the document fields

  /** `(f.value, f.confidence) if f else ("", 0.0)` for `f = fields.get(name)`:
      always a pair of scalars, which `ReceiptEncoder.default` would accept. */
  function FieldPair(d: Document, name: string): (r: PyValue)
    ensures r.Tuple? && |r.items| == 2 && IsScalar(r.items[0]) && IsScalar(r.items[1])
  {
    if name in d.fields then Tuple([d.fields[name].value, d.fields[name].confidence]) else MissingPair
  }

  /** The same for the transaction date, whose value is stored as `str()`:
      always a pair whose first item is a string. */
  function DatePair(d: Document): (r: PyValue)
    ensures r.Tuple? && |r.items| == 2 && r.items[0].Str? && IsScalar(r.items[1])
  {
    if "TransactionDate" in d.fields then
      var f := d.fields["TransactionDate"];
      Tuple([Str(StrOf(f.value)), f.confidence])
    else MissingPair
  }

  /** The five assignments one pass of the loop makes, in order. */
  function FieldEntries(d: Document): Writes {
    [("merchant_name", FieldPair(d, "MerchantName")),
     ("transaction_date", DatePair(d)),
     ("subtotal", FieldPair(d, "Subtotal")),
     ("imposto", FieldPair(d, "TotalTax")),
     ("total", FieldPair(d, "Total"))]
  }

  /** The assignments of the whole loop, document after document. */
  function DocumentWrites(documents: seq<Document>): Writes
    decreases |documents|
  {
    if documents == [] then []
    else DocumentWrites(documents[..|documents| - 1]) + FieldEntries(documents[|documents| - 1])
  }

  /** Five single assignments in a row are the run of all five. */
  lemma FiveMore(before: Writes, e: Writes)
    requires |e| == 5
    ensures before + [e[0]] + [e[1]] + [e[2]] + [e[3]] + [e[4]] == before + e
  {
    assert e == [e[0], e[1], e[2], e[3], e[4]];
  }

  /** One document more in the loop. */
  lemma DocumentWritesStep(documents: seq<Document>, i: nat)
    requires i < |documents|
    ensures DocumentWrites(documents[..i + 1]) == DocumentWrites(documents[..i]) + FieldEntries(documents[i])
  {
    assert documents[..i + 1][..i] == documents[..i];
  }

  /** The loop of lines 145-181: each document overwrites the five keys. */
  method CopyDocumentFields(response: Record, documents: seq<Document>) returns (r: Record)
    ensures r == AssignAll(response, DocumentWrites(documents))
  {
    r := response;
    ghost var ws: Writes := [];
    for i := 0 to |documents|
      invariant ws == DocumentWrites(documents[..i])
      invariant r == AssignAll(response, ws)
    {
      var d := documents[i];
      ghost var before := ws;
      r, ws := Put(response, r, ws, "merchant_name", FieldPair(d, "MerchantName"));
      r, ws := Put(response, r, ws, "transaction_date", DatePair(d));
      r, ws := Put(response, r, ws, "subtotal", FieldPair(d, "Subtotal"));
      r, ws := Put(response, r, ws, "imposto", FieldPair(d, "TotalTax"));
      r, ws := Put(response, r, ws, "total", FieldPair(d, "Total"));
      FiveMore(before, FieldEntries(d));
      DocumentWritesStep(documents, i);
    }
    assert documents[..|documents|] == documents;
  }

  /** The five keys one pass of the loop writes. */
  const FieldKeys: set<string> := {"merchant_name", "transaction_date", "subtotal", "imposto", "total"}

  /** What one pass leaves under each key. */
  lemma FieldEntriesLast(d: Document, k: string)
    ensures LastWrite(FieldEntries(d), k) ==
      if k == "merchant_name" then Some(FieldPair(d, "MerchantName"))
      else if k == "transaction_date" then Some(DatePair(d))
      else if k == "subtotal" then Some(FieldPair(d, "Subtotal"))
      else if k == "imposto" then Some(FieldPair(d, "TotalTax"))
      else if k == "total" then Some(FieldPair(d, "Total"))
      else None
  {
    var first := [("merchant_name", FieldPair(d, "MerchantName")), ("transaction_date", DatePair(d)),
                  ("subtotal", FieldPair(d, "Subtotal"))];
    var second := [("imposto", FieldPair(d, "TotalTax")), ("total", FieldPair(d, "Total"))];
    assert FieldEntries(d) == first + second;
    LastWriteThen(first, second, k);
    LastOfThree(first[0], first[1], first[2], k);
    LastOfTwo(second[0], second[1], k);
  }

  /** The loop writes no key but the five. */
  lemma {:induction false} DocumentsWriteOnlyFields(documents: seq<Document>, k: string)
    requires k !in FieldKeys
    ensures LastWrite(DocumentWrites(documents), k) == None
    decreases |documents|
  {
    if documents != [] {
      var n := |documents| - 1;
      DocumentsWriteOnlyFields(documents[..n], k);
      LastWriteThen(DocumentWrites(documents[..n]), FieldEntries(documents[n]), k);
      FieldEntriesLast(documents[n], k);
    }
  }

  /** A key the last document writes ends up with that write. */
  lemma LastDocumentWins(documents: seq<Document>, k: string)
    requires documents != []
    requires LastWrite(FieldEntries(documents[|documents| - 1]), k).Some?
    ensures LastWrite(DocumentWrites(documents), k) == LastWrite(FieldEntries(documents[|documents| - 1]), k)
  {
    var n := |documents| - 1;
    var last := FieldEntries(documents[n]);
    assert DocumentWrites(documents) == DocumentWrites(documents[..n]) + last;
    LastWriteThen(DocumentWrites(documents[..n]), last, k);
  }

  /** Lines 145-181 on the response: with no documents nothing changes;
      otherwise the five keys hold the pairs of the last document, a field
      it lacks giving `("", 0.0)`, and every other key keeps its value. */
  lemma CopiedFields(response: Record, documents: seq<Document>)
    ensures documents == [] ==> AssignAll(response, DocumentWrites(documents)) == response
    ensures documents != [] ==>
      var out := AssignAll(response, DocumentWrites(documents));
      var d := documents[|documents| - 1];
      && Get(out, "merchant_name") == Some(if "MerchantName" in d.fields
           then Tuple([d.fields["MerchantName"].value, d.fields["MerchantName"].confidence]) else MissingPair)
      && Get(out, "transaction_date") == Some(if "TransactionDate" in d.fields
           then Tuple([Str(StrOf(d.fields["TransactionDate"].value)), d.fields["TransactionDate"].confidence]) else MissingPair)
      && Get(out, "subtotal") == Some(if "Subtotal" in d.fields
           then Tuple([d.fields["Subtotal"].value, d.fields["Subtotal"].confidence]) else MissingPair)
      && Get(out, "imposto") == Some(if "TotalTax" in d.fields
           then Tuple([d.fields["TotalTax"].value, d.fields["TotalTax"].confidence]) else MissingPair)
      && Get(out, "total") == Some(if "Total" in d.fields
           then Tuple([d.fields["Total"].value, d.fields["Total"].confidence]) else MissingPair)
    ensures documents != [] ==>
      var date := Get(AssignAll(response, DocumentWrites(documents)), "transaction_date");
      date.Some? && date.value.Tuple? && |date.value.items| == 2 && date.value.items[0].Str?
    ensures forall k :: k !in FieldKeys ==> Get(AssignAll(response, DocumentWrites(documents)), k) == Get(response, k)
  {
    var ws := DocumentWrites(documents);
    forall k | k !in FieldKeys
      ensures Get(AssignAll(response, ws), k) == Get(response, k)
    {
      DocumentsWriteOnlyFields(documents, k);
      AssignAllGet(response, ws, k);
    }
    if documents != [] {
      var d := documents[|documents| - 1];
      FieldEntriesLast(d, "merchant_name");
      FieldEntriesLast(d, "transaction_date");
      FieldEntriesLast(d, "subtotal");
      FieldEntriesLast(d, "imposto");
      FieldEntriesLast(d, "total");
      FieldCopied(response, documents, "merchant_name");
      FieldCopied(response, documents, "transaction_date");
      FieldCopied(response, documents, "subtotal");
      FieldCopied(response, documents, "imposto");
      FieldCopied(response, documents, "total");
    }
  }

  /** One of the five keys after the loop. */
  lemma FieldCopied(response: Record, documents: seq<Document>, k: string)
    requires documents != []
    requires LastWrite(FieldEntries(documents[|documents| - 1]), k).Some?
    ensures Get(AssignAll(response, DocumentWrites(documents)), k) == LastWrite(FieldEntries(documents[|documents| - 1]), k)
  {
    LastDocumentWins(documents, k);
    AssignAllGet(response, DocumentWrites(documents), k);
  }
}
