/** `ReceiptEncoder.default`, the hook `json.JSONEncoder` calls for a value
    it cannot serialise by itself. */
module Encoder {
  import opened Wrappers
  import opened Values

  /** The TypeError message of `json.JSONEncoder.default`. */
  function NotSerializable(v: PyValue): string {
    "Object of type " + TypeName(v) + " is not JSON serializable"
  }

  /** The IndexError message of `obj[0]` / `obj[1]` on a short tuple. */
  const TupleIndexOutOfRange: string := "tuple index out of range"

  /** `default(obj)`: a tuple becomes `{"value": obj[0], "confidence": obj[1]}`,
      a list or a dict is mapped element by element (keys and order kept,
      and the first element that fails ends the comprehension), and
      anything else raises the TypeError of the base class. The elements of
      a tuple are not encoded further. */
  function Default(v: PyValue): (r: Result<PyValue>)
    ensures IsScalar(v) ==> r.Failure?
    ensures r.Success? ==> (r.value.List? <==> v.List?) && (r.value.Dict? <==> v.Dict? || v.Tuple?)
    decreases v
  {
    match v
    case Tuple(items) =>
      if |items| < 2 then Failure(TupleIndexOutOfRange)
      else Success(Dict([("value", items[0]), ("confidence", items[1])]))
    case List(items) =>
      var rs := seq(|items|, i requires 0 <= i < |items| => Default(items[i]));
      var c := Collect(rs);
      if c.Failure? then Failure(c.error) else Success(List(c.value))
    case Dict(entries) =>
      var rs := seq(|entries|, i requires 0 <= i < |entries| => (assert entries[i] in entries; Default(entries[i].1)));
      var c := Collect(rs);
      if c.Failure? then Failure(c.error)
      else Success(Dict(seq(|entries|, i requires 0 <= i < |entries| => (entries[i].0, c.value[i]))))
    case _ => Failure(NotSerializable(v))
  }

  /** A pair of value and confidence is turned into a two-key dict. */
  lemma PairBecomesDict(value: PyValue, confidence: PyValue)
    ensures Default(Tuple([value, confidence])) == Success(Dict([("value", value), ("confidence", confidence)]))
  {
  }

  /** A tuple of fewer than two items raises IndexError; longer ones keep
      only their first two items. */
  lemma TupleCases(items: seq<PyValue>)
    ensures |items| < 2 <==> Default(Tuple(items)) == Failure(TupleIndexOutOfRange)
    ensures |items| >= 2 ==> Default(Tuple(items)) == Default(Tuple(items[..2]))
  {
  }

  /** Everything that is not a tuple, a list or a dict is refused. */
  lemma ScalarRefused(v: PyValue)
    requires IsScalar(v)
    ensures Default(v) == Failure(NotSerializable(v))
  {
  }

  /** A list is encoded element-wise: same length, same order, each element
      the encoding of the element in its place; and it fails exactly when
      one of its elements does, with the leftmost failure. */
  lemma {:induction false} ListElementWise(items: seq<PyValue>)
    ensures Default(List(items)).Success? <==> forall i :: 0 <= i < |items| ==> Default(items[i]).Success?
    ensures Default(List(items)).Success? ==> var w := Default(List(items)).value;
      w.List? && |w.items| == |items| && forall i :: 0 <= i < |items| ==> Default(items[i]) == Success(w.items[i])
    ensures Default(List(items)).Failure? ==> exists i :: (0 <= i < |items|
      && Default(items[i]) == Failure(Default(List(items)).error)
      && forall j :: 0 <= j < i ==> Default(items[j]).Success?)
  {
    var rs := seq(|items|, i requires 0 <= i < |items| => Default(items[i]));
    assert forall i :: 0 <= i < |items| ==> rs[i] == Default(items[i]);
  }

  /** A dict is encoded value by value: the same keys in the same order,
      each value the encoding of the value under that key. */
  lemma {:induction false} DictElementWise(entries: seq<(string, PyValue)>)
    ensures Default(Dict(entries)).Success? <==> forall i :: 0 <= i < |entries| ==> Default(entries[i].1).Success?
    ensures Default(Dict(entries)).Success? ==> var w := Default(Dict(entries)).value;
      && w.Dict? && |w.entries| == |entries|
      && forall i :: 0 <= i < |entries| ==> w.entries[i].0 == entries[i].0 && Default(entries[i].1) == Success(w.entries[i].1)
    ensures Default(Dict(entries)).Failure? ==> exists i :: (0 <= i < |entries|
      && Default(entries[i].1) == Failure(Default(Dict(entries)).error)
      && forall j :: 0 <= j < i ==> Default(entries[j].1).Success?)
  {
    var rs := seq(|entries|, i requires 0 <= i < |entries| => (assert entries[i] in entries; Default(entries[i].1)));
    assert forall i :: 0 <= i < |entries| ==> rs[i] == Default(entries[i].1);
  }

  /** The values `default` accepts: tuples of two or more items, and lists
      and dicts built only of such values. */
  predicate Encodable(v: PyValue)
    decreases v
  {
    match v
    case Tuple(items) => |items| >= 2
    case List(items) => forall i :: 0 <= i < |items| ==> Encodable(items[i])
    case Dict(entries) => forall i :: 0 <= i < |entries| ==> (assert entries[i] in entries; Encodable(entries[i].1))
    case _ => false
  }

  /** `default` succeeds exactly on the encodable values. */
  lemma {:induction false} DefaultSucceedsIffEncodable(v: PyValue)
    ensures Default(v).Success? <==> Encodable(v)
    decreases v
  {
    match v
    case Tuple(_) =>
    case List(items) =>
      ListElementWise(items);
      forall i | 0 <= i < |items| ensures Default(items[i]).Success? <==> Encodable(items[i]) {
        DefaultSucceedsIffEncodable(items[i]);
      }
    case Dict(entries) =>
      DictElementWise(entries);
      forall i | 0 <= i < |entries| ensures Default(entries[i].1).Success? <==> Encodable(entries[i].1) {
        assert entries[i] in entries;
        DefaultSucceedsIffEncodable(entries[i].1);
      }
    case _ =>
  }
}
