/** Python values as they appear in the receipt response, and the response
    dict itself, an insertion-ordered mapping from keys to values. */
module Values {
  import opened Wrappers

  /** A Python object. `Object` stands for any other class (a date, a
      currency amount, ...), carried by its class name and its str() text.
      `Float` carries the text repr() gives for it. */
  datatype PyValue =
    | PyNone
    | Bool(b: bool)
    | Int(i: int)
    | Float(repr: string)
    | Str(s: string)
    | Object(typeName: string, text: string)
    | Tuple(items: seq<PyValue>)
    | List(items: seq<PyValue>)
    | Dict(entries: seq<(string, PyValue)>)

  predicate IsScalar(v: PyValue) {
    !(v.Tuple? || v.List? || v.Dict?)
  }

  /** The values a recognised document field can hold. */
  type Scalar = v: PyValue | IsScalar(v) witness PyNone

  /** `type(v).__name__` */
  function TypeName(v: PyValue): string {
    match v
    case PyNone => "NoneType"
    case Bool(_) => "bool"
    case Int(_) => "int"
    case Float(_) => "float"
    case Str(_) => "str"
    case Object(t, _) => t
    case Tuple(_) => "tuple"
    case List(_) => "list"
    case Dict(_) => "dict"
  }

  function DigitChar(d: nat): char
    requires d < 10
  {
    ('0' as int + d) as char
  }

  function NatToDecimal(n: nat): string
    decreases n
  {
    if n < 10 then [DigitChar(n)] else NatToDecimal(n / 10) + [DigitChar(n % 10)]
  }

  /** `str(i)` for a Python int. */
  function IntToDecimal(i: int): string {
    if i < 0 then "-" + NatToDecimal(-i) else NatToDecimal(i)
  }

  /** `str(v)` for the scalar values a document field holds. */
  function StrOf(v: Scalar): string {
    match v
    case PyNone => "None"
    case Bool(b) => if b then "True" else "False"
    case Int(i) => IntToDecimal(i)
    case Float(r) => r
    case Str(s) => s
    case Object(_, text) => text
  }

  /** The pair the response stores for a field a document lacks, `("", 0.0)`. */
  const MissingPair: PyValue := Tuple([Str(""), Float("0.0")])

  /** A Python dict with string keys, in insertion order. */
  type Record = seq<(string, PyValue)>

  /** `d.get(k)` */
  function Get(d: Record, k: string): (r: Option<PyValue>)
    ensures r.Some? <==> exists i :: 0 <= i < |d| && d[i].0 == k
    ensures r.Some? ==> exists i :: 0 <= i < |d| && d[i] == (k, r.value) && forall j :: 0 <= j < i ==> d[j].0 != k
  {
    if d == [] then None
    else if d[0].0 == k then Some(d[0].1)
    else
      var r := Get(d[1..], k);
      assert r.Some? ==> forall i :: 0 <= i < |d| - 1 && d[1..][i] == (k, r.value) ==> d[i + 1] == (k, r.value);
      r
  }

  /** No key occurs twice; every dict satisfies this. */
  predicate NoDuplicateKeys(d: Record) {
    d == [] || (Get(d[1..], d[0].0).None? && NoDuplicateKeys(d[1..]))
  }

  /** `d[k] = v`: an existing key keeps its position, a new key goes last. */
  function Assign(d: Record, k: string, v: PyValue): (r: Record)
    ensures forall k' :: Get(r, k') == if k' == k then Some(v) else Get(d, k')
    ensures Get(d, k).Some? ==> |r| == |d| && forall i :: 0 <= i < |d| ==> r[i].0 == d[i].0
    ensures Get(d, k).None? ==> r == d + [(k, v)]
    ensures NoDuplicateKeys(d) ==> NoDuplicateKeys(r)
  {
    if d == [] then [(k, v)]
    else if d[0].0 == k then [(k, v)] + d[1..]
    else [d[0]] + Assign(d[1..], k, v)
  }

  /** A run of assignments `d[k] = v`, in the order they are made. */
  type Writes = seq<(string, PyValue)>

  /** `d` after the assignments `ws`, one after another. Keys already in
      `d` stay where they are, new keys come after them, and a dict stays
      a dict. */
  function AssignAll(d: Record, ws: Writes): (r: Record)
    ensures |d| <= |r| && forall i :: 0 <= i < |d| ==> r[i].0 == d[i].0
    ensures NoDuplicateKeys(d) ==> NoDuplicateKeys(r)
    decreases |ws|
  {
    if ws == [] then d
    else
      var last := ws[|ws| - 1];
      Assign(AssignAll(d, ws[..|ws| - 1]), last.0, last.1)
  }

  /** The value the last assignment to `k` in `ws` gives it, if any. */
  function LastWrite(ws: Writes, k: string): Option<PyValue>
    decreases |ws|
  {
    if ws == [] then None
    else if ws[|ws| - 1].0 == k then Some(ws[|ws| - 1].1)
    else LastWrite(ws[..|ws| - 1], k)
  }

  /** One more assignment at the end. */
  lemma AssignAllSnoc(d: Record, ws: Writes, k: string, v: PyValue)
    ensures AssignAll(d, ws + [(k, v)]) == Assign(AssignAll(d, ws), k, v)
  {
    assert (ws + [(k, v)])[..|ws|] == ws;
  }

  /** Two runs of assignments made one after the other. */
  lemma {:induction false} AssignAllThen(d: Record, a: Writes, b: Writes)
    ensures AssignAll(d, a + b) == AssignAll(AssignAll(d, a), b)
    decreases |b|
  {
    if b == [] {
      assert a + b == a;
    } else {
      var b' := b[..|b| - 1];
      assert (a + b)[..|a + b| - 1] == a + b';
      AssignAllThen(d, a, b');
    }
  }

  /** After a run of assignments, a key holds the value of the last
      assignment to it, and keeps its old value when there was none. */
  lemma {:induction false} AssignAllGet(d: Record, ws: Writes, k: string)
    ensures Get(AssignAll(d, ws), k) == if LastWrite(ws, k).Some? then LastWrite(ws, k) else Get(d, k)
    decreases |ws|
  {
    if ws != [] {
      AssignAllGet(d, ws[..|ws| - 1], k);
    }
  }

  /** The last write to a key in two runs is in the second run if it
      writes the key at all. */
  lemma {:induction false} LastWriteThen(a: Writes, b: Writes, k: string)
    ensures LastWrite(a + b, k) == if LastWrite(b, k).Some? then LastWrite(b, k) else LastWrite(a, k)
    decreases |b|
  {
    if b == [] {
      assert a + b == a;
    } else {
      assert (a + b)[..|a + b| - 1] == a + b[..|b| - 1];
      LastWriteThen(a, b[..|b| - 1], k);
    }
  }

  /** A single write. */
  lemma LastWriteOne(k': string, v: PyValue, k: string)
    ensures LastWrite([(k', v)], k) == if k' == k then Some(v) else None
  {
    assert [(k', v)][..0] == [];
  }
}
