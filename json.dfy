/** How `json.dumps(response, cls=ReceiptEncoder)` turns the response into a
    JSON document, as a tree (the text layout, escaping and number
    formatting are not modelled). The encoder serialises None, booleans,
    numbers, strings, lists, tuples and dicts by itself, and calls
    `default` only for any other object. */
module JsonOut {
  import opened Wrappers
  import opened Values
  import opened Encoder

  datatype Json =
    | JNull
    | JBool(b: bool)
    | JInt(i: int)
    | JFloat(repr: string)
    | JString(s: string)
    | JArray(items: seq<Json>)
    | JObject(members: seq<(string, Json)>)

  /** `json.dumps(v, cls=ReceiptEncoder)` as the encoder runs it: a tuple is
      written as an array, like a list, without going through `default`;
      any other object goes to `default`, which refuses it. */
  function Dumps(v: PyValue): Result<Json>
    decreases v
  {
    match v
    case PyNone => Success(JNull)
    case Bool(b) => Success(JBool(b))
    case Int(i) => Success(JInt(i))
    case Float(r) => Success(JFloat(r))
    case Str(s) => Success(JString(s))
    case Object(_, _) => Failure(Default(v).error)
    case Tuple(items) => DumpsItems(v, items)
    case List(items) => DumpsItems(v, items)
    case Dict(entries) =>
      var rs := seq(|entries|, i requires 0 <= i < |entries| => (assert entries[i] in entries; Dumps(entries[i].1)));
      var c := Collect(rs);
      if c.Failure? then Failure(c.error)
      else Success(JObject(seq(|entries|, i requires 0 <= i < |entries| => (entries[i].0, c.value[i]))))
  }

  /** The items of a list or tuple `v`, each dumped, as an array. */
  function DumpsItems(ghost v: PyValue, items: seq<PyValue>): Result<Json>
    requires v == List(items) || v == Tuple(items)
    decreases v, 0
  {
    var rs := seq(|items|, i requires 0 <= i < |items| => Dumps(items[i]));
    var c := Collect(rs);
    if c.Failure? then Failure(c.error) else Success(JArray(c.value))
  }

  /** The dump the encoder was written for: every tuple goes through
      `ReceiptEncoder.default` and comes out as a `{"value", "confidence"}`
      object. */
  function DumpsWithPairs(v: PyValue): Result<Json>
    decreases v
  {
    match v
    case PyNone => Success(JNull)
    case Bool(b) => Success(JBool(b))
    case Int(i) => Success(JInt(i))
    case Float(r) => Success(JFloat(r))
    case Str(s) => Success(JString(s))
    case Object(_, _) => Failure(Default(v).error)
    case Tuple(items) =>
      if |items| < 2 then Failure(Default(v).error)
      else
        var value := DumpsWithPairs(items[0]);
        var confidence := DumpsWithPairs(items[1]);
        if value.Failure? then Failure(value.error)
        else if confidence.Failure? then Failure(confidence.error)
        else Success(JObject([("value", value.value), ("confidence", confidence.value)]))
    case List(items) =>
      var rs := seq(|items|, i requires 0 <= i < |items| => DumpsWithPairs(items[i]));
      var c := Collect(rs);
      if c.Failure? then Failure(c.error) else Success(JArray(c.value))
    case Dict(entries) =>
      var rs := seq(|entries|, i requires 0 <= i < |entries| => (assert entries[i] in entries; DumpsWithPairs(entries[i].1)));
      var c := Collect(rs);
      if c.Failure? then Failure(c.error)
      else Success(JObject(seq(|entries|, i requires 0 <= i < |entries| => (entries[i].0, c.value[i]))))
  }

  /** As written, a stored pair is dumped as a two-element array: the
      encoder never hands the tuple to `default`. */
  lemma PairDumpedAsArray()
    ensures Dumps(MissingPair) == Success(JArray([JString(""), JFloat("0.0")]))
    ensures Dumps(MissingPair) != DumpsWithPairs(MissingPair)
  {
    var rs := seq(2, i requires 0 <= i < 2 => Dumps(MissingPair.items[i]));
    CollectValues(rs, [JString(""), JFloat("0.0")]);
  }

  /** A tuple is dumped as an array as written, and as an object by the
      corrected dispatch. */
  lemma TupleDumps(v: PyValue)
    requires v.Tuple?
    ensures Dumps(v).Success? ==> Dumps(v).value.JArray?
    ensures DumpsWithPairs(v).Success? ==> DumpsWithPairs(v).value.JObject?
  {
  }

  /** As written, a dict that holds a tuple anywhere among its values is not
      dumped the way the encoder was written for. */
  lemma DictWithTupleDumpedAsWritten(entries: seq<(string, PyValue)>, i: nat)
    requires i < |entries| && entries[i].1.Tuple?
    requires Dumps(Dict(entries)).Success?
    ensures Dumps(Dict(entries)) != DumpsWithPairs(Dict(entries))
  {
    var rs := seq(|entries|, n requires 0 <= n < |entries| => (assert entries[n] in entries; Dumps(entries[n].1)));
    var rs' := seq(|entries|, n requires 0 <= n < |entries| => (assert entries[n] in entries; DumpsWithPairs(entries[n].1)));
    var c, c' := Collect(rs), Collect(rs');
    TupleDumps(entries[i].1);
    assert rs[i] == Dumps(entries[i].1) && rs'[i] == DumpsWithPairs(entries[i].1);
    if c'.Success? {
      var d := Dumps(Dict(entries)).value;
      var d' := DumpsWithPairs(Dict(entries)).value;
      assert d.members[i].1 == c.value[i] && d'.members[i].1 == c'.value[i];
      assert c.value[i].JArray? && c'.value[i].JObject?;
    }
  }

  /** With every tuple sent through `default`, a pair is dumped as the
      object `default` turns it into. */
  lemma {:induction false} PairDumpedAsObject(v: PyValue)
    requires v.Tuple?
    ensures Default(v).Failure? ==> DumpsWithPairs(v) == Failure(Default(v).error)
    ensures Default(v).Success? ==> DumpsWithPairs(v) == DumpsWithPairs(Default(v).value)
  {
    if |v.items| >= 2 {
      var d := Default(v).value;
      assert d == Dict([("value", v.items[0]), ("confidence", v.items[1])]);
      var rs := seq(2, i requires 0 <= i < 2 => (assert d.entries[i] in d.entries; DumpsWithPairs(d.entries[i].1)));
      var a, b := DumpsWithPairs(v.items[0]), DumpsWithPairs(v.items[1]);
      assert rs[0] == a && rs[1] == b;
      if a.Failure? {
        CollectFirstFailure(rs, 0);
      } else if b.Failure? {
        CollectFirstFailure(rs, 1);
      } else {
        CollectValues(rs, [a.value, b.value]);
        var members := seq(2, i requires 0 <= i < 2 => (d.entries[i].0, [a.value, b.value][i]));
        assert members == [("value", a.value), ("confidence", b.value)];
      }
    }
  }

  /** No tuple anywhere inside. */
  predicate TupleFree(v: PyValue)
    decreases v
  {
    match v
    case Tuple(_) => false
    case List(items) => forall i :: 0 <= i < |items| ==> TupleFree(items[i])
    case Dict(entries) => forall i :: 0 <= i < |entries| ==> (assert entries[i] in entries; TupleFree(entries[i].1))
    case _ => true
  }

  /** The two dumps differ only on tuples. */
  lemma {:induction false} AgreeWithoutTuples(v: PyValue)
    requires TupleFree(v)
    ensures Dumps(v) == DumpsWithPairs(v)
    decreases v
  {
    match v
    case List(items) =>
      var rs := seq(|items|, i requires 0 <= i < |items| => Dumps(items[i]));
      var rs' := seq(|items|, i requires 0 <= i < |items| => DumpsWithPairs(items[i]));
      forall i | 0 <= i < |items| ensures rs[i] == rs'[i] {
        AgreeWithoutTuples(items[i]);
      }
      assert rs == rs';
    case Dict(entries) =>
      var rs := seq(|entries|, i requires 0 <= i < |entries| => (assert entries[i] in entries; Dumps(entries[i].1)));
      var rs' := seq(|entries|, i requires 0 <= i < |entries| => (assert entries[i] in entries; DumpsWithPairs(entries[i].1)));
      forall i | 0 <= i < |entries| ensures rs[i] == rs'[i] {
        assert entries[i] in entries;
        AgreeWithoutTuples(entries[i].1);
      }
      assert rs == rs';
    case _ =>
  }

  /** No object of another class anywhere inside. */
  predicate PlainData(v: PyValue)
    decreases v
  {
    match v
    case Object(_, _) => false
    case Tuple(items) => forall i :: 0 <= i < |items| ==> PlainData(items[i])
    case List(items) => forall i :: 0 <= i < |items| ==> PlainData(items[i])
    case Dict(entries) => forall i :: 0 <= i < |entries| ==> (assert entries[i] in entries; PlainData(entries[i].1))
    case _ => true
  }

  /** As written, the dump fails exactly when some value inside is an object
      of another class (a date, say): `default` refuses every such object. */
  lemma {:induction false} DumpsSucceedsIffPlain(v: PyValue)
    ensures Dumps(v).Success? <==> PlainData(v)
    decreases v
  {
    match v
    case Tuple(items) =>
      var rs := seq(|items|, i requires 0 <= i < |items| => Dumps(items[i]));
      forall i | 0 <= i < |items| ensures rs[i].Success? <==> PlainData(items[i]) {
        DumpsSucceedsIffPlain(items[i]);
      }
    case List(items) =>
      var rs := seq(|items|, i requires 0 <= i < |items| => Dumps(items[i]));
      forall i | 0 <= i < |items| ensures rs[i].Success? <==> PlainData(items[i]) {
        DumpsSucceedsIffPlain(items[i]);
      }
    case Dict(entries) =>
      var rs := seq(|entries|, i requires 0 <= i < |entries| => (assert entries[i] in entries; Dumps(entries[i].1)));
      forall i | 0 <= i < |entries| ensures rs[i].Success? <==> PlainData(entries[i].1) {
        assert entries[i] in entries;
        DumpsSucceedsIffPlain(entries[i].1);
      }
    case _ =>
  }
}
