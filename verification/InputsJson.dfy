/** An inputs record as the JSON of its sorted pairs: what two records share exactly when they serialize alike. */
module InputsJson {

  /** A validated input; a number stands as the text JSON gives it. */
  datatype InputValue = Text(text: string) | Number(digits: string) | Flag(on: bool)

  datatype Input = Input(name: string, value: InputValue)

  /** A record's properties in their own order. */
  type Inputs = seq<Input>

  predicate Numeric(c: char) {
    '0' <= c <= '9' || c in "+-.e"
  }

  predicate WellFormed(v: InputValue) {
    v.Number? ==> v.digits != "" && forall c :: c in v.digits ==> Numeric(c)
  }

  /** A record names each property once. */
  ghost predicate Record(s: Inputs) {
    && (forall i :: 0 <= i < |s| ==> WellFormed(s[i].value))
    && (forall i, j :: 0 <= i < j < |s| ==> s[i].name != s[j].name)
  }

  /** The same properties with the same values, in whatever order. */
  ghost predicate SameInputs(a: Inputs, b: Inputs) {
    forall p :: p in a <==> p in b
  }

  // ---- sorting the names ----

  predicate LexLess(a: string, b: string) {
    b != "" && (a == "" || a[0] < b[0] || (a[0] == b[0] && LexLess(a[1..], b[1..])))
  }

  lemma {:induction false} LexTotal(a: string, b: string)
    ensures LexLess(a, b) || a == b || LexLess(b, a)
    ensures !(LexLess(a, b) && LexLess(b, a)) && (a == b ==> !LexLess(a, b))
  {
    if a != "" && b != "" {
      LexTotal(a[1..], b[1..]);
      assert a == [a[0]] + a[1..] && b == [b[0]] + b[1..];
    }
  }

  lemma {:induction false} LexTransitive(a: string, b: string, c: string)
    requires LexLess(a, b) && LexLess(b, c)
    ensures LexLess(a, c)
  {
    if a != "" { if a[0] == b[0] == c[0] { LexTransitive(a[1..], b[1..], c[1..]); } }
  }

  function InsertByName(p: Input, s: Inputs): Inputs {
    if s != [] && LexLess(s[0].name, p.name) then [s[0]] + InsertByName(p, s[1..]) else [p] + s
  }

  function SortByName(s: Inputs): Inputs {
    if s == [] then [] else InsertByName(s[0], SortByName(s[1..]))
  }

  ghost predicate SortedByName(s: Inputs) {
    forall i, j :: 0 <= i < j < |s| ==> LexLess(s[i].name, s[j].name)
  }

  lemma {:induction false} InsertSorts(p: Input, s: Inputs)
    requires SortedByName(s) && forall q :: q in s ==> q.name != p.name
    ensures SortedByName(InsertByName(p, s))
    ensures forall q :: q in InsertByName(p, s) <==> q == p || q in s
  {
    hide LexLess;
    var r := InsertByName(p, s);
    if s != [] && LexLess(s[0].name, p.name) {
      InsertSorts(p, s[1..]);
      forall j | 0 < j < |r| ensures LexLess(s[0].name, r[j].name) {
        assert r[j] in r[1..];
      }
    } else if s != [] {
      assert s[0] in s;
      LexTotal(p.name, s[0].name);
      forall j | 0 < j < |s| ensures LexLess(p.name, s[j].name) {
        LexTransitive(p.name, s[0].name, s[j].name);
      }
    }
  }

  lemma {:induction false} SortSorts(s: Inputs)
    requires Record(s)
    ensures SortedByName(SortByName(s)) && forall q :: q in SortByName(s) <==> q in s
  {
    if s != [] {
      SortSorts(s[1..]);
      InsertSorts(s[0], SortByName(s[1..]));
    }
  }

  lemma {:induction false} SortedUnique(a: Inputs, b: Inputs)
    requires SortedByName(a) && SortedByName(b) && SameInputs(a, b)
    ensures a == b
  {
    hide LexLess;
    assert a != [] ==> a[0] in b;
    assert b != [] ==> b[0] in a;
    if a != [] {
      LexTotal(a[0].name, b[0].name);
      forall p ensures p in a[1..] <==> p in b[1..] {
        LexTotal(a[0].name, a[0].name);
        assert p in a[1..] <==> p in a && p != a[0];
        assert p in b[1..] <==> p in b && p != b[0];
      }
      SortedUnique(a[1..], b[1..]);
    }
  }

  // ---- the JSON text ----

  function Hex(d: nat): char
    requires d < 16
  {
    if d < 10 then ('0' as int + d) as char else ('a' as int + d - 10) as char
  }

  /** One character inside a JSON string. */
  function Escape(c: char): (e: string)
    ensures e != ""
  {
    var n := c as int;
    if c == '\"' then "\\\""
    else if c == '\\' then "\\\\"
    else if n == 8 then "\\b"
    else if n == 9 then "\\t"
    else if n == 10 then "\\n"
    else if n == 12 then "\\f"
    else if n == 13 then "\\r"
    else if n < 32 then "\\u00" + [Hex(n / 16), Hex(n % 16)]
    else [c]
  }

  /** A string's characters and its closing quote. */
  function Body(s: string): string {
    if s == "" then "\"" else Escape(s[0]) + Body(s[1..])
  }

  function Quote(s: string): string {
    "\"" + Body(s)
  }

  function ValueText(v: InputValue): string {
    match v
    case Text(text) => Quote(text)
    case Number(digits) => digits
    case Flag(on) => if on then "true" else "false"
  }

  function PairText(p: Input): string {
    "[" + Quote(p.name) + "," + ValueText(p.value) + "]"
  }

  function PairsText(s: Inputs): string {
    if s == [] then "" else PairText(s[0]) + (if |s| == 1 then "" else "," + PairsText(s[1..]))
  }

  /** `serializeInputs`: the JSON of the `[key, value]` pairs, keys sorted. */
  function SerializeInputs(s: Inputs): string {
    "[" + PairsText(SortByName(s)) + "]"
  }

  // ---- reading it back: each piece determines itself and what follows ----

  lemma SamePrefix(a: string, x: string, b: string, y: string)
    requires a + x == b + y && |a| == |b|
    ensures a == b && x == y
  {
    assert a == (a + x)[..|a|] && b == (b + y)[..|b|];
    assert x == (a + x)[|a|..] && y == (b + y)[|b|..];
  }

  lemma EscapeCancels(c: char, d: char, x: string, y: string)
    requires Escape(c) + x == Escape(d) + y
    ensures c == d && x == y
  {
    var e, f := Escape(c), Escape(d);
    assert e[0] == (e + x)[0] == (f + y)[0] == f[0];
    assert |e| > 1 && |f| > 1 ==> e[1] == (e + x)[1] == (f + y)[1] == f[1];
    assert |e| == 6 && |f| == 6 ==>
        e[4] == (e + x)[4] == (f + y)[4] == f[4] && e[5] == (e + x)[5] == (f + y)[5] == f[5];
    if |e| == 6 && |f| == 6 {
      HexCancels(c as int / 16, d as int / 16);
      HexCancels(c as int % 16, d as int % 16);
    }
    SamePrefix(e, x, f, y);
  }

  lemma HexCancels(m: nat, n: nat)
    requires m < 16 && n < 16
    ensures Hex(m) == Hex(n) ==> m == n
  {
  }

  lemma {:induction false} BodyCancels(a: string, b: string, x: string, y: string)
    requires Body(a) + x == Body(b) + y
    ensures a == b && x == y
    decreases |a|
  {
    hide Escape;
    if a != "" && b != "" {
      assert Escape(a[0]) + (Body(a[1..]) + x) == Body(a) + x;
      assert Escape(b[0]) + (Body(b[1..]) + y) == Body(b) + y;
      EscapeCancels(a[0], b[0], Body(a[1..]) + x, Body(b[1..]) + y);
      BodyCancels(a[1..], b[1..], x, y);
      assert a == [a[0]] + a[1..] && b == [b[0]] + b[1..];
    } else {
      BodyStart(a);
      BodyStart(b);
      assert (Body(a) + x)[0] == Body(a)[0] && (Body(b) + y)[0] == Body(b)[0];
      SamePrefix("\"", x, "\"", y);
    }
  }

  lemma BodyStart(s: string)
    ensures Body(s) != "" && (Body(s)[0] == '\"' <==> s == "")
  {
  }

  lemma QuoteCancels(a: string, b: string, x: string, y: string)
    requires Quote(a) + x == Quote(b) + y
    ensures a == b && x == y
  {
    hide Body;
    assert (Quote(a) + x)[1..] == Body(a) + x && (Quote(b) + y)[1..] == Body(b) + y;
    BodyCancels(a, b, x, y);
  }

  lemma BracketAt(a: string, x: string)
    requires forall c :: c in a ==> Numeric(c)
    ensures var s := a + "]" + x;
            |a| < |s| && s[|a|] == ']' && forall i :: 0 <= i < |a| ==> s[i] != ']'
  {
    assert forall i :: 0 <= i < |a| ==> (a + "]" + x)[i] == a[i] && a[i] in a;
  }

  /** A run of numeric characters ends at its bracket. */
  lemma NumberCancels(a: string, b: string, x: string, y: string)
    requires a + "]" + x == b + "]" + y
    requires (forall c :: c in a ==> Numeric(c)) && (forall c :: c in b ==> Numeric(c))
    ensures a == b && x == y
  {
    hide Numeric;
    BracketAt(a, x);
    BracketAt(b, y);
    SamePrefix(a + "]", x, b + "]", y);
    SamePrefix(a, "]", b, "]");
  }

  lemma ValueStart(v: InputValue)
    requires WellFormed(v)
    ensures ValueText(v) != ""
    ensures match v
            case Text(_) => ValueText(v)[0] == '\"'
            case Number(_) => Numeric(ValueText(v)[0])
            case Flag(on) => ValueText(v)[0] == if on then 't' else 'f'
  {
    if v.Number? { assert v.digits[0] in v.digits; }
  }

  lemma TextCancels(a: string, b: string, x: string, y: string)
    requires Quote(a) + "]" + x == Quote(b) + "]" + y
    ensures a == b && x == y
  {
    hide Quote;
    assert Quote(a) + ("]" + x) == Quote(a) + "]" + x;
    assert Quote(b) + ("]" + y) == Quote(b) + "]" + y;
    QuoteCancels(a, b, "]" + x, "]" + y);
    SamePrefix("]", x, "]", y);
  }

  lemma SameStart(v: string, w: string, x: string, y: string)
    requires v != "" && w != "" && v + x == w + y
    ensures v[0] == w[0]
  {
    assert v[0] == (v + x)[0] == (w + y)[0] == w[0];
  }

  lemma ValueCancels(v: InputValue, w: InputValue, x: string, y: string)
    requires WellFormed(v) && WellFormed(w) && ValueText(v) + "]" + x == ValueText(w) + "]" + y
    ensures v == w && x == y
  {
    hide Quote;
    ValueStart(v);
    ValueStart(w);
    assert ValueText(v) + "]" + x == ValueText(v) + ("]" + x) && ValueText(w) + "]" + y == ValueText(w) + ("]" + y);
    SameStart(ValueText(v), ValueText(w), "]" + x, "]" + y);
    match v
    case Text(a) => TextCancels(a, w.text, x, y);
    case Number(a) => NumberCancels(a, w.digits, x, y);
    case Flag(on) => SamePrefix(ValueText(v) + "]", x, ValueText(w) + "]", y);
  }

  lemma PairCancels(p: Input, q: Input, x: string, y: string)
    requires WellFormed(p.value) && WellFormed(q.value) && PairText(p) + x == PairText(q) + y
    ensures p == q && x == y
  {
    hide Quote, ValueText;
    var r, s := "," + ValueText(p.value) + "]" + x, "," + ValueText(q.value) + "]" + y;
    assert PairText(p) + x == "[" + (Quote(p.name) + r);
    assert PairText(q) + y == "[" + (Quote(q.name) + s);
    SamePrefix("[", Quote(p.name) + r, "[", Quote(q.name) + s);
    QuoteCancels(p.name, q.name, r, s);
    assert r == "," + (ValueText(p.value) + "]" + x) && s == "," + (ValueText(q.value) + "]" + y);
    SamePrefix(",", ValueText(p.value) + "]" + x, ",", ValueText(q.value) + "]" + y);
    ValueCancels(p.value, q.value, x, y);
  }

  function Rest(s: Inputs): string
    requires s != []
  {
    if |s| == 1 then "" else "," + PairsText(s[1..])
  }

  lemma {:induction false} PairsCancel(a: Inputs, b: Inputs)
    requires PairsText(a) == PairsText(b)
    requires (forall p :: p in a ==> WellFormed(p.value)) && (forall p :: p in b ==> WellFormed(p.value))
    ensures a == b
  {
    hide PairText;
    if a != [] && b != [] {
      assert a[0] in a && b[0] in b;
      PairCancels(a[0], b[0], Rest(a), Rest(b));
      if |a| > 1 && |b| > 1 {
        SamePrefix(",", PairsText(a[1..]), ",", PairsText(b[1..]));
        PairsCancel(a[1..], b[1..]);
      }
      assert a == [a[0]] + a[1..] && b == [b[0]] + b[1..];
    } else {
      PairsStart(a);
      PairsStart(b);
    }
  }

  lemma PairsStart(s: Inputs)
    ensures PairsText(s) == "" <==> s == []
  {
    if s != [] { assert PairText(s[0])[0] == '['; }
  }

  /** Two records serialize alike exactly when they hold the same properties, in whatever order. */
  lemma InputsIdentity(a: Inputs, b: Inputs)
    requires Record(a) && Record(b)
    ensures SerializeInputs(a) == SerializeInputs(b) <==> SameInputs(a, b)
  {
    hide PairsText, SortByName, WellFormed;
    var s, t := SortByName(a), SortByName(b);
    SortSorts(a);
    SortSorts(b);
    if SerializeInputs(a) == SerializeInputs(b) {
      SamePrefix("[" + PairsText(s), "]", "[" + PairsText(t), "]");
      SamePrefix("[", PairsText(s), "[", PairsText(t));
      PairsCancel(s, t);
    }
    if SameInputs(a, b) {
      SortedUnique(s, t);
    }
  }

  // ---- no NUL ----

  lemma {:induction false} BodyPlain(s: string)
    ensures '\0' !in Body(s)
  {
    if s != "" { BodyPlain(s[1..]); }
  }

  lemma PairPlain(p: Input)
    requires WellFormed(p.value)
    ensures '\0' !in PairText(p)
  {
    hide Body;
    BodyPlain(p.name);
    if p.value.Text? { BodyPlain(p.value.text); }
  }

  lemma {:induction false} PairsPlain(s: Inputs)
    requires forall p :: p in s ==> WellFormed(p.value)
    ensures '\0' !in PairsText(s)
  {
    hide PairText, WellFormed;
    if s != [] {
      PairPlain(s[0]);
      PairsPlain(s[1..]);
    }
  }

  /** The JSON of a record never holds the key separator. */
  lemma InputsPlain(s: Inputs)
    requires Record(s)
    ensures '\0' !in SerializeInputs(s)
  {
    hide PairsText, WellFormed, SortByName;
    SortSorts(s);
    PairsPlain(SortByName(s));
  }
}
