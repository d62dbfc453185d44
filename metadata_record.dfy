/**
 * The canonical metadata record the inspiration view writes into a card:
 * a flat object built by successive property assignments, whose keys are the
 * ten properties the plugin knows, and its serialisation
 * `JSON.stringify(record, null, 2)`.
 *
 * JavaScript keeps string keys in the order they were first assigned, and a
 * later assignment to a key overwrites its value in place.
 */
module MetadataRecord {
  import opened Wrappers
  import opened Text
  import opened Json
  import opened Seqs

  /** The properties of a card's metadata. */
  datatype Key = Warning | Color | IsPinned | Tags | Images | IsFloating | FloatX | FloatY | FloatW | FloatH

  /** The property name a key is written under. */
  function KeyName(k: Key): string
  {
    match k
    case Warning => "warning"
    case Color => "color"
    case IsPinned => "ispinned"
    case Tags => "tags"
    case Images => "images"
    case IsFloating => "isfloating"
    case FloatX => "floatx"
    case FloatY => "floaty"
    case FloatW => "floatw"
    case FloatH => "floath"
  }

  /** No two keys share a property name. */
  lemma {:induction false} KeyNameInjective(a: Key, b: Key)
    requires KeyName(a) == KeyName(b)
    ensures a == b
  {
    var n := KeyName(a);
    assert |n| == |KeyName(b)|;
    if |n| == 6 {
      assert n[0] == KeyName(b)[0] && n[5] == KeyName(b)[5];
    }
  }

  /** The values a canonical metadata record holds. */
  datatype Scalar = SStr(s: string) | SBool(b: bool) | SInt(i: int)

  /**
   * A JavaScript object with string keys: its keys in the order they were first
   * assigned, and the value each one holds.
   */
  datatype Record = Record(order: seq<Key>, values: map<Key, Scalar>)

  const Empty := Record([], map[])

  /** Every key listed once, and exactly the keys that hold a value. */
  predicate Valid(r: Record)
  {
    NoDups(r.order) && (forall k :: k in r.order <==> k in r.values)
  }

  /** `obj[k]`, with `None` for `undefined`. */
  function Lookup(r: Record, k: Key): Option<Scalar>
  {
    if k in r.values then Some(r.values[k]) else None
  }

  /** `obj[k] = v`: an existing key keeps its place and takes the new value, a new key goes last. */
  function Assign(r: Record, k: Key, v: Scalar): (r': Record)
    ensures Lookup(r', k) == Some(v)
    ensures r.order <= r'.order && r'.order[|r.order|..] == if k in r.values then [] else [k]
  {
    var order := if k in r.values then r.order else r.order + [k];
    Record(order, r.values[k := v])
  }

  /** An assignment changes the value of its own key and of no other. */
  lemma {:induction false} AssignLookup(r: Record, k: Key, v: Scalar, j: Key)
    ensures Lookup(Assign(r, k, v), j) == if j == k then Some(v) else Lookup(r, j)
  {
  }

  /** Assignments keep every key listed once. */
  lemma {:induction false} AssignValid(r: Record, k: Key, v: Scalar)
    requires Valid(r)
    ensures Valid(Assign(r, k, v))
  {
    var r' := Assign(r, k, v);
    if k !in r.values {
      forall i, j | 0 <= i < j < |r'.order|
        ensures r'.order[i] != r'.order[j]
      {
        if j == |r.order| {
          assert r'.order[i] in r.order;
        }
      }
    }
  }

  /** The JSON value a scalar reads back as. */
  function ScalarValue(v: Scalar): JValue
  {
    match v
    case SStr(s) => JStr(s)
    case SBool(b) => JBool(b)
    case SInt(i) => JNum(Finite(i))
  }

  function ValueOf(v: Option<Scalar>): Option<JValue>
  {
    if v.Some? then Some(ScalarValue(v.value)) else None
  }

  /** The property bag a record reads back as once serialised and parsed again. */
  function ToMetadata(r: Record): (m: Metadata)
    ensures forall k :: Get(m, KeyName(k)) == ValueOf(Lookup(r, k))
    ensures forall s :: s in m ==> exists k :: k in r.values && KeyName(k) == s
  {
    forall a, b | KeyName(a) == KeyName(b)
      ensures a == b
    {
      KeyNameInjective(a, b);
    }
    var m := map k | k in r.values :: KeyName(k) := ScalarValue(r.values[k]);
    assert forall s :: s in m ==> exists k :: k in r.values && KeyName(k) == s by {
      forall s | s in m
        ensures exists k :: k in r.values && KeyName(k) == s
      {
        var k :| k in r.values && KeyName(k) == s;
      }
    }
    m
  }

  /* ---------------------------------------------------------- serialisation */

  function ScalarText(v: Scalar): string
  {
    match v
    case SStr(s) => QuoteString(s)
    case SBool(b) => if b then "true" else "false"
    case SInt(i) => IntToString(i)
  }

  function FieldLine(k: Key, v: Scalar): string
  {
    "  " + QuoteString(KeyName(k)) + ": " + ScalarText(v)
  }

  /** One line per listed key that holds a value. */
  function FieldLines(order: seq<Key>, values: map<Key, Scalar>): (ls: seq<string>)
    ensures |ls| <= |order|
  {
    if order == [] then []
    else if order[0] in values then [FieldLine(order[0], values[order[0]])] + FieldLines(order[1..], values)
    else FieldLines(order[1..], values)
  }

  /** `JSON.stringify(record, null, 2)`: braces around one property per line, in key order, indented by two spaces. */
  function Stringify(r: Record): (text: string)
    ensures |text| >= 2 && text[0] == '{' && text[|text| - 1] == '}'
    ensures Trim(text) == text
  {
    var lines := FieldLines(r.order, r.values);
    var text := if lines == [] then "{}" else "{\n" + Join(lines, ",\n") + "\n}";
    TrimNoOuterSpace(text);
    text
  }
}
