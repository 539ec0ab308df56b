# Receipt processing: a Dafny model of the response pipeline

`process_receipt/__init__.py` is an HTTP-triggered function. It takes the
address of a receipt photo (`imgUrl`), fetches and preprocesses the image,
has a document-analysis service recognise it, and stores the processed
image in blob storage. It then builds a response dict from the recognised
text and fields:

- the payment method (`tipo_pagamento`), the currency (`moeda`) and the
  tax number (`cnpj`), read from the text with regular expressions;
- the city and the business activity (`cidade`, `tipo`), looked up with
  two registry services;
- five (value, confidence) pairs per analysed document.

Finally it serialises the dict with `ReceiptEncoder`.

This project models the deterministic core of the function. What the
outside world does is an input:

- the exceptions of the image fetch, of the preprocessing and of the upload;
- the analysis result;
- the request id;
- the answers of the two registries.

The model then states exactly what the function does with those inputs.

The modules:

- `Wrappers`: `Option`, `Result`, and `Collect`, the first-failure
  behaviour of a comprehension whose element raises.
- `Values`: Python values (`PyValue`) and dicts as insertion-ordered
  records.
  - `Assign` is `d[k] = v`.
  - A run of assignments is `Writes`.
  - `AssignAll` applies the run and `LastWrite` finds its last write to a
    key.
  - `AssignAllGet` connects the two: a key holds the value of its last
    write, and keeps its old value when there is none.
- `TextPatterns`: the four regular expressions of lines 107-110, written as
  matchers that follow CPython `re` semantics:
  - the leftmost start wins;
  - alternatives are tried in order;
  - greedy optional items backtrack, so the longest gap is tried first.

  `Search` is `re.search`. On top of it are `PaymentMethod`, `Currency` and
  `FindCnpj` (the outer search, then the inner search), plus
  `StripPunctuation`.
- `Encoder`: `ReceiptEncoder.default`.
- `JsonOut`: how `json.dumps(..., cls=ReceiptEncoder)` dispatches:
  - `Dumps` is the dispatch as it runs;
  - `DumpsWithPairs` is the corrected dispatch (see Findings).
- `Receipt`: lines 106-181.
  - The regex block and the registry lookups are the method
    `SearchAndEnrich`, with `QueryRegistry`, `QueryRecord` and
    `QueryClassification`.
  - The document loop is the method `CopyDocumentFields`.

  Each method is proved to leave exactly the record
  `AssignAll(response, XWrites(...))`: the whole new dict, key order
  included. Here `XWrites` is a pure function listing the assignments made
  on each path. The lemmas then state what ends up under each key.
- `Handler`: `main`.
  - `ImageUrl` and the usage-text branch.
  - The 400 answer when the analysis fails.
  - The order of every write to the response.
  - The error slot, where the last writer wins.

The method `HandleRequest` is proved against `HandlerWrites`.

Quirks of the code are modelled as written:

- A non-200 registry reply keeps the number in `cnpj` and sets `error` to
  `CNPJ não encontrado`.
- A non-200 classification reply writes the key `tip`, not `tipo`.
- After a 200 classification reply, line 134 reads `.status_code` on
  the parsed dict. So `error` receives
  `'dict' object has no attribute 'status_code'`.
- The `cnpj`, `cidade` and `tipo` keys are cleared only when no number was
  found.
- With zero documents, none of the five field keys is set.
- A malformed JSON body falls through to the usage text with status 200.

Three more behaviours of the code are modelled as they are:

- the tax number is searched for only in the recognised text, never in
  the recognised fields;
- a failed registry lookup does not clear `cnpj`, `cidade` and `tipo`;
- a field key is absent from the response when there are no documents.

## Model

| member | source | states |
|---|---|---|
| Wrappers.Collect | process_receipt/__init__.py:23-25 | a comprehension over fallible elements succeeds iff every element does, with the values in order; otherwise it fails with the leftmost element's error |
| Values.Get | process_receipt/__init__.py:40 | `d.get(k)` is present exactly when some entry has key `k`, and then it is the value of the first entry with that key |
| Values.Assign | process_receipt/__init__.py:113 | after `d[k] = v`, `k` holds `v` and every other key keeps its value; an existing key keeps its position, a new key is appended, and a dict without duplicate keys stays one |
| Values.AssignAll | process_receipt/__init__.py:111-143 | a run of assignments keeps the keys already present in their places and introduces no duplicate key |
| Values.AssignAllGet | process_receipt/__init__.py:137-143 | after a run of assignments a key holds the value of the last assignment to it, and its old value when no assignment touched it |
| Values.AssignAllThen | process_receipt/__init__.py:111-181 | two runs of assignments in sequence give the same dict as the concatenated run |
| Values.LastWriteThen | process_receipt/__init__.py:111-181 | the last write to a key over two runs is in the second run if the second run writes the key at all |
| TextPatterns.PaymentAt | process_receipt/__init__.py:110 | a match of `(Cr(é\|e)dito\|D(é\|e)bito\|Dinheiro)` at a position is, ignoring case, one of the five payment words; and wherever one of those words starts, the pattern matches |
| TextPatterns.NoPaymentWordAt | process_receipt/__init__.py:110 | where none of the three alternatives matches, no payment word starts |
| TextPatterns.LeftmostPaymentWord | process_receipt/__init__.py:110-113 | the stored payment method is `''` exactly when no payment word occurs in the text; otherwise it is a payment word taken from the text where the leftmost payment word starts |
| TextPatterns.DotsThenDollar | process_receipt/__init__.py:109 | a match of `.?…\$` is a gap of at most k newline-free characters followed by `$`, and no longer such gap exists; no match means no such gap of any length up to k exists |
| TextPatterns.CurrencyAt | process_receipt/__init__.py:109 | a match of `((.?.?.?)\|R?)\$` is the longest gap of at most three newline-free characters followed by `$`; no match means there is no such gap |
| TextPatterns.RAlternativeNeverWins | process_receipt/__init__.py:109 | where the first alternative fails, `R?\$` cannot match either: `R` is itself a `.` |
| TextPatterns.CurrencyMatchShape | process_receipt/__init__.py:109 | a currency match is 1 to 4 characters long, ends in `$` and holds no newline |
| TextPatterns.LayoutBounds | process_receipt/__init__.py:108 | a match of the number layout `\d{2}\.?\d{3}\.?\d{3}\/?\d{4}-?\d{2}` is 14 to 18 characters long |
| TextPatterns.LayoutEnd | process_receipt/__init__.py:108 | the end of a layout match lies 14 to 18 characters after its start, within the text |
| TextPatterns.GapThenLayout | process_receipt/__init__.py:107-108 | `.?` repeated k times then the layout matches exactly when some gap of at most k newline-free characters is followed by a layout match; the match ends where that layout ends for the longest such gap |
| TextPatterns.CnpjAt | process_receipt/__init__.py:107 | `(CNPJ)(.?.?.?)` plus the layout matches exactly when the label is there, ignoring case, and some gap of at most three newline-free characters is followed by a layout match; the match ends with the layout after the longest such gap |
| TextPatterns.Search | process_receipt/__init__.py:111-119 | `re.search` returns the leftmost start with a match and its end; no earlier start matches; no result means no start matches anywhere |
| TextPatterns.PaymentMethod | process_receipt/__init__.py:111-113 | the stored payment method is `''` exactly when the pattern matches nowhere; otherwise it is the leftmost match, a payment word |
| TextPatterns.Currency | process_receipt/__init__.py:114-115 | with no match the currency is `'R$'`; any other value is the leftmost match |
| TextPatterns.NoDollarGivesDefault | process_receipt/__init__.py:114-115 | text without `$` gives `'R$'` |
| TextPatterns.DollarGivesMatch | process_receipt/__init__.py:114-115 | text with a `$` gives the leftmost match: 1 to 4 characters ending in `$`, with no newline |
| TextPatterns.FoundCurrencyShape | process_receipt/__init__.py:114-115 | when the search succeeds, the stored currency is the leftmost match and has the shape above |
| TextPatterns.DefaultCurrencyAlsoMatched | process_receipt/__init__.py:114-115 | `'R$'` is also what the pattern reads off `"R$ 5"`, so the default does not mean there is no `$` |
| TextPatterns.KeepDropsSeparators | process_receipt/__init__.py:121-122 | no `.`, `/` or `-` survives the filter |
| TextPatterns.StripKeepsTheRest | process_receipt/__init__.py:121-122 | the three `replace` calls equal a single filter that drops exactly `.`, `/` and `-` and keeps every other character in order |
| TextPatterns.LayoutStripsToKey | process_receipt/__init__.py:108-122 | stripping a layout match leaves its 14 digits in order, a registry key |
| TextPatterns.StagesKeepDigits | process_receipt/__init__.py:108-122 | dropping the punctuation from a stretch matched by digit groups with punctuation separators leaves exactly the digits of the groups, in order |
| TextPatterns.NumberInCnpjMatch | process_receipt/__init__.py:116-119 | the bare-number pattern always matches inside a `CNPJ…` match |
| TextPatterns.InnerSearchSucceeds | process_receipt/__init__.py:116-120 | the inner search of line 119 never returns None, so `.group()` on line 120 cannot fail |
| TextPatterns.FindCnpj | process_receipt/__init__.py:116-122 | a number is found iff the outer pattern matches; it is the leftmost layout match inside the leftmost `CNPJ…` match, 14 to 18 characters long, and strips to 14 digits |
| TextPatterns.StoredNumberIsFound | process_receipt/__init__.py:116-120 | the leftmost layout match inside the leftmost `CNPJ…` match is exactly the stored number, so the description determines it |
| TextPatterns.CnpjExample | process_receipt/__init__.py:116-120 | `"CNPJ 12.345.678/0001-95"` stores `"12.345.678/0001-95"`, punctuation kept |
| TextPatterns.ExampleInContext | process_receipt/__init__.py:116-120 | any text holding `"CNPJ 12.345.678/0001-95"`, with no `CNPJ…` match starting before it, stores `"12.345.678/0001-95"` |
| TextPatterns.StagesFromWindow | process_receipt/__init__.py:108 | a layout match read inside a stretch of a text is the same match in the whole text |
| TextPatterns.LabelledNumberIn | process_receipt/__init__.py:107 | a stretch reading `CNPJ`, one gap character and a layout match is matched by the outer pattern the same way in the whole text |
| TextPatterns.CnpjFound | process_receipt/__init__.py:116-120 | in `"CNPJ 12.345.678/0001-95"` the number is found where it stands, after the label and the space |
| TextPatterns.KeyExample | process_receipt/__init__.py:121-122 | that number strips to the registry key `"12345678000195"` |
| Encoder.Default | process_receipt/__init__.py:18-27 | every scalar is refused; a successful result is a list exactly for a list, and a dict exactly for a dict or a tuple, so no tuple comes out of `default` |
| Encoder.PairBecomesDict | process_receipt/__init__.py:20-21 | a (value, confidence) pair becomes the two-key dict |
| Encoder.TupleCases | process_receipt/__init__.py:20-21 | a tuple fails exactly when it has fewer than two items; a longer one keeps only its first two |
| Encoder.ScalarRefused | process_receipt/__init__.py:26-27 | every scalar is refused with `Object of type … is not JSON serializable` |
| Encoder.ListElementWise | process_receipt/__init__.py:22-23 | a list is encoded element by element, with the same length and order, and fails exactly when an element fails, with the leftmost failure |
| Encoder.DictElementWise | process_receipt/__init__.py:24-25 | a dict is encoded value by value, with the same keys in the same order, and fails exactly when a value fails, with the leftmost failure |
| Encoder.DefaultSucceedsIffEncodable | process_receipt/__init__.py:18-27 | `default` succeeds exactly on pairs and on lists and dicts built only of pairs |
| JsonOut.PairDumpedAsArray | process_receipt/__init__.py:184 | as written, a stored pair such as `("", 0.0)` is dumped as the array `["", 0.0]`, not as the object `default` builds |
| JsonOut.PairDumpedAsObject | process_receipt/__init__.py:18-21 | with tuples sent through `default`, a pair is dumped as the `{"value", "confidence"}` object, and a short tuple fails with `default`'s error |
| JsonOut.AgreeWithoutTuples | process_receipt/__init__.py:184 | the as-written and the corrected dumps agree on every value without a tuple |
| JsonOut.DumpsSucceedsIffPlain | process_receipt/__init__.py:184 | as written, the dump fails exactly when an object of another class occurs somewhere inside |
| JsonOut.TupleDumps | process_receipt/__init__.py:18-21 | a tuple is dumped as an array as written, and as an object by the corrected dispatch |
| JsonOut.DictWithTupleDumpedAsWritten | process_receipt/__init__.py:184 | as written, a dict that holds a tuple is not dumped the way the encoder was written for |
| Receipt.SearchAndEnrich | process_receipt/__init__.py:106-143 | the block leaves the response after exactly the assignments of `EnrichmentWrites`, in order, and makes exactly the registry requests of `Lookups` |
| Receipt.QueryRegistry | process_receipt/__init__.py:123-143 | from the registry request on, the response receives exactly the assignments of `RegistryWrites` for the reply, and a classification request is made only after a readable 200 reply |
| Receipt.QueryRecord | process_receipt/__init__.py:125-135 | after a 200 reply, the response receives exactly the assignments of `RecordWrites` for the parsed record, and the classification request is made exactly when a division was read |
| Receipt.QueryClassification | process_receipt/__init__.py:129-135 | the response receives exactly the assignments of `ClassificationWrites` for the classification reply |
| Receipt.Put | process_receipt/__init__.py:113 | one assignment extends the run and the dict accordingly |
| Receipt.Lookups | process_receipt/__init__.py:123-130 | at most two requests are made |
| Receipt.ClassificationLookups | process_receipt/__init__.py:125-130 | at most one classification request follows a registry reply |
| Receipt.PaymentAndCurrencyKept | process_receipt/__init__.py:111-115 | after the block, `tipo_pagamento` and `moeda` hold what the two searches found: nothing later overwrites them |
| Receipt.EnrichmentLast | process_receipt/__init__.py:111-143 | where the last write to each key comes from: the clearing when no number is found; otherwise the registry branch, then the stored number, then the two searches |
| Receipt.EnrichmentWritesOnly | process_receipt/__init__.py:111-143 | the block writes no key other than its seven keys |
| Receipt.NoNumberClears | process_receipt/__init__.py:116-141 | with no number no request is made, the registry answers do not matter, `cnpj`, `cidade` and `tipo` become `''`, and `error` keeps its earlier value |
| Receipt.NumberLookedUp | process_receipt/__init__.py:116-124 | a found number is stored as matched; the stripped 14-digit key is what the registry is asked for, and it is the first request |
| Receipt.CnpjKept | process_receipt/__init__.py:136-141 | with a non-empty key, the registry branch never rewrites `cnpj` |
| Receipt.CnpjClearedIffNoNumber | process_receipt/__init__.py:116-141 | `cnpj` ends up `''` iff the text holds no number; a failed lookup keeps the number |
| Receipt.RegistryMissReported | process_receipt/__init__.py:125-137 | a non-200 registry reply sets `error` to `CNPJ não encontrado`, leaves `cidade`, `tipo` and `tip` untouched, and makes no classification request |
| Receipt.ClassifiedThenRaises | process_receipt/__init__.py:127-143 | after a readable 200 registry reply and a 200 classification reply, `cidade` and `tipo` are stored, and then `error` holds the AttributeError raised on line 134; both requests are made |
| Receipt.ClassificationMissWritesTip | process_receipt/__init__.py:131-135 | a non-200 classification reply writes `tip`, leaving `tipo` and `error` untouched |
| Receipt.RegistryNeverWrites | process_receipt/__init__.py:123-143 | the registry branch writes only `error`, `cidade`, `tipo` and `tip`, and writes `cnpj` only for an empty key |
| Receipt.ClassificationNeverWrites | process_receipt/__init__.py:129-135 | the classification branch writes only `error`, `tipo` and `tip` |
| Receipt.FieldPair | process_receipt/__init__.py:146-148 | what is stored for a field is always a pair of scalars, present or not, so `default` could encode it |
| Receipt.DatePair | process_receipt/__init__.py:149-151 | what is stored for the date is always a pair whose first item is a string |
| Receipt.CopyDocumentFields | process_receipt/__init__.py:145-181 | the loop leaves the response after exactly the five assignments per document, document after document |
| Receipt.FieldCopied | process_receipt/__init__.py:145-181 | with at least one document, a key the last document writes holds that document's pair |
| Receipt.FieldEntriesLast | process_receipt/__init__.py:145-181 | one pass writes the five keys with the pairs of the five fields, and nothing else |
| Receipt.DocumentsWriteOnlyFields | process_receipt/__init__.py:145-181 | the loop writes no key outside the five |
| Receipt.LastDocumentWins | process_receipt/__init__.py:145-181 | a key the last document writes holds that document's write |
| Receipt.CopiedFields | process_receipt/__init__.py:145-181 | with no documents the response is unchanged; otherwise each of the five keys holds the last document's (value, confidence) for its field, the date's value as a string, and `("", 0.0)` for a field it lacks; every other key keeps its value |
| Handler.ImageUrl | process_receipt/__init__.py:33-40 | a non-empty query parameter wins; otherwise a JSON dict body gives its `imgUrl` or None; a non-JSON body gives no address; a JSON body that is not a dict raises |
| Handler.HandleRequest | process_receipt/__init__.py:33-192 | a raising `.get` is raised; no address gives the usage text with status 200; a failed fetch is raised; a failed analysis gives status 400 with its message; otherwise the reply is line 184's dump of the empty dict after every `HandlerWrites` assignment (pairs as arrays), or the error it raises, with the requests of `Lookups` |
| Handler.ReplyNotAsIntended | process_receipt/__init__.py:145-184 | with at least one document, a reply that is dumped at all differs from the one with pairs as `{"value", "confidence"}` objects |
| Handler.LastDocumentStored | process_receipt/__init__.py:145-181 | in the response, a key the last document writes holds that document's write |
| Handler.NoDocumentsNoFields | process_receipt/__init__.py:145-184 | with no documents, none of the five field keys is in the response at all |
| Handler.Preprocess | process_receipt/__init__.py:53-73 | a preprocessing failure writes only `error` into the empty response |
| Handler.RecordAnalysis | process_receipt/__init__.py:89-181 | after the analysis, the response receives `id_ocr`, the upload result, the block's writes and the loop's writes, in order |
| Handler.HandlerLast | process_receipt/__init__.py:72-181 | the last write to a key is from the latest stage that writes it |
| Handler.UploadLast | process_receipt/__init__.py:91-104 | the upload writes `img_proc_url` on success and `error` on failure, and nothing else |
| Handler.PreprocessLast | process_receipt/__init__.py:71-72 | the preprocessing writes only `error`, and only when it fails |
| Handler.ErrorSlot | process_receipt/__init__.py:72-143 | `error` holds the block's last error if it wrote one; otherwise the upload's; otherwise the preprocessing's; otherwise it is absent |
| Handler.IdStored | process_receipt/__init__.py:89 | the response always carries the request id |
| Handler.ImageAddressStored | process_receipt/__init__.py:91-102 | `img_proc_url` is the blob address exactly when the upload succeeded, and is absent otherwise |
| Handler.KeptKey | process_receipt/__init__.py:89-181 | a key outside the block's and the loop's keys holds what the first steps left under it |
| Handler.ResponseStart | process_receipt/__init__.py:43-89 | the response has no duplicate key, and its first key is `error` when the preprocessing failed and `id_ocr` otherwise |

## Left out

- The image fetch, its decoding, the OpenCV preprocessing, the document
  analysis call, `uuid.uuid4()`, the environment variables, the blob upload
  and the HTTP requests to the registries are inputs, not computations.
  `Services` carries their results or the text of the exception they
  raise.
- `urllib.parse.unquote` on line 44 has no effect on the result, so it is
  not modelled. For an address that is not a string it raises (an
  AttributeError for a list or a dict, a TypeError for a number); that
  exception falls under the fetch failure.
- `logging.info` on line 31 is not modelled.
- The JSON text layout, escaping and number formatting are not modelled:
  `JsonOut` produces a JSON tree.
- Python floats are not modelled as numbers: a float is carried as its
  `repr` text.
- The `# …` code that is commented out (items, tip) is not part of the code
  and is not modelled.
- TextPatterns.IsDigit: `\d` is restricted to the ASCII digits. Python's
  `\d` also accepts every other Unicode decimal digit.
- TextPatterns.FoldEq: IGNORECASE is modelled only for the letters these
  patterns use. For those letters it is the letter, its upper case, and
  for `i` also `İ` and `ı`.
- TextPatterns.Currency: its contract is one direction only. No match gives
  `'R$'`, but `'R$'` can also be a match (DefaultCurrencyAlsoMatched).
- Receipt.RegistryWrites: the parsed registry record is taken to be a
  non-empty dict. So the `if not cnpj` test on line 138 is false for it,
  and after a non-200 reply it is true only for an empty key. That case
  cannot arise, because the key always has 14 digits.
- Receipt.Lookups: a missing `API_ENDPOINT_CNPJ` or `API_ENDPOINT_CNAE`
  variable raises KeyError before the request is sent. The model takes that
  as an unreachable service, so `Lookups` still lists the request.
- Receipt.RegistryRecord: the address concatenation of line 130
  raising for a non-string division is folded into `CityWithoutDivision`.
  The city read from the record is any Python value.
- The response's `merchant_name` and total values are recognised-field
  scalars. The analysis service's own field types are not modelled.

## Findings

| source | as written | input that shows it | evidently intended | confidence | as-written member | corrected member |
|---|---|---|---|---|---|---|
| process_receipt/__init__.py:18-27 | `json.dumps` serialises tuples itself, as arrays, and calls `ReceiptEncoder.default` only for values it cannot serialise, so the tuple branch of `default` never runs for the stored pairs | a response holding `("", 0.0)` is dumped as `["", 0.0]` | every (value, confidence) pair rendered as `{"value": …, "confidence": …}` | not executed | JsonOut.PairDumpedAsArray | JsonOut.PairDumpedAsObject |

The handler renders its response with `JsonOut.Dumps`, as line 184 does.
The corrected `JsonOut.DumpsWithPairs` is kept beside it. `AgreeWithoutTuples`
shows that the two differ only on tuples, and `Handler.ReplyNotAsIntended`
shows that every reply for a receipt with a document is affected.
