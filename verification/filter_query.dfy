/**
 * The filter form of the dashboard and the query string `handleFilter` builds
 * from it: twelve parameters in a fixed order, the empty ones dropped, each
 * remaining one written `key=encodeURIComponent(value)` and joined by `&`.
 */
module FilterQuery {
  import opened Outcomes
  import UriComponent

  /** The twelve filter inputs, each holding the text of its form control. */
  datatype FilterInputs = FilterInputs(
    xColumn: string, yColumn: string,
    minY: string, maxY: string, minX: string, maxX: string,
    categoria: string, categoriaY: string,
    fechaInicio: string, fechaFin: string,
    contieneX: string, contieneY: string)

  /** The inputs with every control cleared. */
  const Blank := FilterInputs("", "", "", "", "", "", "", "", "", "", "", "")

  /** Names one of the twelve inputs. */
  datatype InputField =
    | XColumn | YColumn | MinY | MaxY | MinX | MaxX
    | Categoria | CategoriaY | FechaInicio | FechaFin | ContieneX | ContieneY

  /** The position of an input in the parameter object. */
  function Index(field: InputField): (i: nat)
    ensures i < 12
  {
    match field
    case XColumn => 0 case YColumn => 1 case MinY => 2 case MaxY => 3
    case MinX => 4 case MaxX => 5 case Categoria => 6 case CategoriaY => 7
    case FechaInicio => 8 case FechaFin => 9 case ContieneX => 10 case ContieneY => 11
  }

  /** The text of one input. */
  function Input(f: FilterInputs, field: InputField): string {
    Values(f)[Index(field)]
  }

  /** What a control's `onChange` does: one input takes the new text, the others keep theirs. */
  function SetInput(f: FilterInputs, field: InputField, text: string): (f': FilterInputs)
    ensures Input(f', field) == text
    ensures forall g: InputField :: g != field ==> Input(f', g) == Input(f, g)
  {
    match field
    case XColumn => f.(xColumn := text)
    case YColumn => f.(yColumn := text)
    case MinY => f.(minY := text)
    case MaxY => f.(maxY := text)
    case MinX => f.(minX := text)
    case MaxX => f.(maxX := text)
    case Categoria => f.(categoria := text)
    case CategoriaY => f.(categoriaY := text)
    case FechaInicio => f.(fechaInicio := text)
    case FechaFin => f.(fechaFin := text)
    case ContieneX => f.(contieneX := text)
    case ContieneY => f.(contieneY := text)
  }

  /** The query keys, in the order the parameter object declares them. */
  const ParamKeys: seq<string> := [
    "x_column", "y_column", "min_y", "max_y", "min_x", "max_x",
    "categoria", "categoria_y", "fecha_inicio", "fecha_fin", "contiene_x", "contiene_y"]

  /** The inputs in parameter order: `Values(f)[i]` feeds `ParamKeys[i]`. */
  function Values(f: FilterInputs): (vs: seq<string>)
    ensures |vs| == |ParamKeys|
  {
    [f.xColumn, f.yColumn, f.minY, f.maxY, f.minX, f.maxX,
     f.categoria, f.categoriaY, f.fechaInicio, f.fechaFin, f.contieneX, f.contieneY]
  }

  /** The four range bounds are sent through `Number(...)`; the rest as text. */
  predicate IsNumeric(i: int) {
    2 <= i < 6
  }

  /** One field of the parameter object: its key and a value or `null`. */
  datatype Param = Param(key: string, value: Option<string>)

  /**
   * The parameter object. A text input becomes its text, or `null` when empty
   * (`x || null`); a range bound becomes the text of `Number(x)`, or `null`
   * when empty (`x ? Number(x) : null`). JavaScript's string-to-number-to-string
   * conversion is the parameter `numberText`.
   */
  function Params(f: FilterInputs, numberText: string -> string): (ps: seq<Param>)
    ensures |ps| == |ParamKeys|
    ensures forall i :: 0 <= i < |ps| ==> ps[i].key == ParamKeys[i]
    ensures forall i :: 0 <= i < |ps| ==> (ps[i].value == None <==> Values(f)[i] == "")
    ensures forall i :: 0 <= i < |ps| && Values(f)[i] != "" && !IsNumeric(i) ==> ps[i].value == Some(Values(f)[i])
    ensures forall i :: 0 <= i < |ps| && Values(f)[i] != "" && IsNumeric(i) ==> ps[i].value == Some(numberText(Values(f)[i]))
  {
    var vs := Values(f);
    seq(|ParamKeys|, i requires 0 <= i < |ParamKeys| =>
      Param(ParamKeys[i],
            if vs[i] == "" then None
            else if IsNumeric(i) then Some(numberText(vs[i]))
            else Some(vs[i])))
  }

  /** The non-null parameters as key/value pairs, in their original order. */
  function Present(ps: seq<Param>): seq<(string, string)> {
    if ps == [] then []
    else if ps[0].value.Some? then [(ps[0].key, ps[0].value.value)] + Present(ps[1..])
    else Present(ps[1..])
  }

  /**
   * `Present` keeps the non-null parameters and only those, without reordering:
   * it distributes over concatenation and keeps or drops each parameter alone.
   */
  lemma {:induction false} PresentAppend(a: seq<Param>, b: seq<Param>)
    ensures Present(a + b) == Present(a) + Present(b)
  {
    if a == [] {
      assert a + b == b;
    } else {
      assert (a + b)[0] == a[0];
      assert (a + b)[1..] == a[1..] + b;
      PresentAppend(a[1..], b);
    }
  }

  /** `key=encodeURIComponent(value)`. */
  function Pair(key: string, value: string): string {
    key + "=" + UriComponent.Encode(value)
  }

  function Pairs(kvs: seq<(string, string)>): (ss: seq<string>)
    ensures |ss| == |kvs|
    ensures forall i :: 0 <= i < |kvs| ==> ss[i] == Pair(kvs[i].0, kvs[i].1)
  {
    if kvs == [] then [] else [Pair(kvs[0].0, kvs[0].1)] + Pairs(kvs[1..])
  }

  /** `parts.join(sep)`. */
  function Join(parts: seq<string>, sep: char): string {
    if |parts| == 0 then ""
    else if |parts| == 1 then parts[0]
    else parts[0] + [sep] + Join(parts[1..], sep)
  }

  /** The query string `handleFilter` appends to the filter endpoint's URL. */
  function Query(ps: seq<Param>): string {
    Join(Pairs(Present(ps)), '&')
  }

  // ---------------------------------------------------------------------------
  // Reading a query string back

  /** `s.split(sep)`: always at least one piece, none of which holds `sep`. */
  function Split(s: string, sep: char): (parts: seq<string>)
    ensures |parts| >= 1
    decreases |s|
  {
    if s == [] then [""]
    else if s[0] == sep then [""] + Split(s[1..], sep)
    else var r := Split(s[1..], sep); [[s[0]] + r[0]] + r[1..]
  }

  /** Reads one `key=value` piece, decoding the value. */
  function ParsePair(piece: string): Option<(string, string)> {
    var kv := Split(piece, '=');
    if |kv| != 2 then None
    else match UriComponent.Decode(kv[1])
      case None => None
      case Some(v) => Some((kv[0], v))
  }

  function ParsePairs(pieces: seq<string>): Option<seq<(string, string)>> {
    if pieces == [] then Some([])
    else match (ParsePair(pieces[0]), ParsePairs(pieces[1..]))
      case (Some(kv), Some(rest)) => Some([kv] + rest)
      case _ => None
  }

  /** Reads a query string into its key/value pairs; the empty string has none. */
  function ParseQuery(q: string): Option<seq<(string, string)>> {
    if q == "" then Some([]) else ParsePairs(Split(q, '&'))
  }

  lemma {:induction false} SplitFree(a: string, sep: char)
    requires sep !in a
    ensures Split(a, sep) == [a]
  {
    if a != [] {
      SplitFree(a[1..], sep);
      assert [a[0]] + a[1..] == a;
    }
  }

  /** A piece free of `sep`, then `sep`, splits off as the first piece. */
  lemma {:induction false} SplitAt(a: string, sep: char, b: string)
    requires sep !in a
    ensures Split(a + [sep] + b, sep) == [a] + Split(b, sep)
  {
    if a == [] {
      assert a + [sep] + b == [sep] + b;
      assert ([sep] + b)[1..] == b;
    } else {
      var s := a + [sep] + b;
      assert s[0] == a[0] && s[1..] == a[1..] + [sep] + b;
      SplitAt(a[1..], sep, b);
      assert [a[0]] + a[1..] == a;
    }
  }

  /** Splitting a join recovers the parts when none of them holds the separator. */
  lemma {:induction false} SplitJoin(parts: seq<string>, sep: char)
    requires |parts| >= 1
    requires forall i :: 0 <= i < |parts| ==> sep !in parts[i]
    ensures Split(Join(parts, sep), sep) == parts
  {
    if |parts| == 1 {
      SplitFree(parts[0], sep);
    } else {
      SplitAt(parts[0], sep, Join(parts[1..], sep));
      SplitJoin(parts[1..], sep);
    }
  }

  /** Keys the query syntax can carry as they are: no `&`, `=` or escapes. */
  predicate PlainKey(k: string) {
    forall i :: 0 <= i < |k| ==> k[i] != '&' && k[i] != '=' && k[i] != '%'
  }

  lemma PairParses(k: string, v: string)
    requires PlainKey(k)
    ensures '&' !in Pair(k, v)
    ensures ParsePair(Pair(k, v)) == Some((k, v))
  {
    var e := UriComponent.Encode(v);
    assert '=' !in k && '=' !in e && '&' !in e;
    assert Pair(k, v) == k + ['='] + e;
    SplitAt(k, '=', e);
    SplitFree(e, '=');
    UriComponent.DecodeEncode(v);
  }

  lemma {:induction false} PairsParse(kvs: seq<(string, string)>)
    requires forall i :: 0 <= i < |kvs| ==> PlainKey(kvs[i].0)
    ensures ParsePairs(Pairs(kvs)) == Some(kvs)
  {
    if kvs != [] {
      var ss := Pairs(kvs);
      PairParses(kvs[0].0, kvs[0].1);
      PairsParse(kvs[1..]);
      assert ss[0] == Pair(kvs[0].0, kvs[0].1);
      assert ss[1..] == Pairs(kvs[1..]);
      assert [kvs[0]] + kvs[1..] == kvs;
    }
  }

  lemma PairAmpersandFree(k: string, v: string)
    requires PlainKey(k)
    ensures '&' !in Pair(k, v)
  {
    var e := UriComponent.Encode(v);
    assert '&' !in e;
    assert Pair(k, v) == k + ['='] + e;
  }

  lemma PairsAmpersandFree(kvs: seq<(string, string)>)
    requires forall i :: 0 <= i < |kvs| ==> PlainKey(kvs[i].0)
    ensures forall i :: 0 <= i < |kvs| ==> '&' !in Pairs(kvs)[i]
  {
    forall i | 0 <= i < |kvs| ensures '&' !in Pairs(kvs)[i] {
      PairAmpersandFree(kvs[i].0, kvs[i].1);
    }
  }

  /**
   * Reading the query string back yields exactly the non-null parameters,
   * with their values, in declaration order: nothing is lost, added or
   * reordered by the serialisation.
   */
  lemma {:induction false} QueryRoundTrip(ps: seq<Param>)
    requires forall i :: 0 <= i < |ps| ==> PlainKey(ps[i].key) && ps[i].key != ""
    ensures ParseQuery(Query(ps)) == Some(Present(ps))
  {
    var kvs := Present(ps);
    PresentKeys(ps);
    PairsParse(kvs);
    PairsAmpersandFree(kvs);
    var parts := Pairs(kvs);
    if kvs == [] {
    } else {
      SplitJoin(parts, '&');
      assert parts[0] == kvs[0].0 + "=" + UriComponent.Encode(kvs[0].1);
      JoinNonEmpty(parts, '&');
    }
  }

  lemma {:induction false} PresentKeys(ps: seq<Param>)
    requires forall i :: 0 <= i < |ps| ==> PlainKey(ps[i].key) && ps[i].key != ""
    ensures forall j :: 0 <= j < |Present(ps)| ==> PlainKey(Present(ps)[j].0) && Present(ps)[j].0 != ""
  {
    if ps != [] {
      PresentKeys(ps[1..]);
    }
  }

  lemma JoinNonEmpty(parts: seq<string>, sep: char)
    requires |parts| >= 1 && parts[0] != ""
    ensures Join(parts, sep) != ""
  {
  }

  /** The keys of the filter parameters are query-safe and non-empty. */
  lemma ParamKeysPlain()
    ensures forall i :: 0 <= i < |ParamKeys| ==> PlainKey(ParamKeys[i]) && ParamKeys[i] != ""
  {
  }

  /**
   * The query string of a filter form reads back as exactly its non-empty
   * inputs, keyed in declaration order, the range bounds as number text.
   */
  lemma FilterQueryRoundTrip(f: FilterInputs, numberText: string -> string)
    ensures ParseQuery(Query(Params(f, numberText))) == Some(Present(Params(f, numberText)))
    ensures f == Blank ==> Query(Params(f, numberText)) == ""
  {
    var ps := Params(f, numberText);
    ParamKeysPlain();
    QueryRoundTrip(ps);
    if f == Blank {
      BlankPresentNone(ps);
    }
  }

  lemma {:induction false} BlankPresentNone(ps: seq<Param>)
    requires forall i :: 0 <= i < |ps| ==> ps[i].value.None?
    ensures Present(ps) == []
  {
    if ps != [] {
      BlankPresentNone(ps[1..]);
    }
  }
}
