/** The bridge's canonical serializer: `walk`, then `JSON.stringify`, together with a reader of
    what it writes (grammar of RFC 8259 without insignificant whitespace). */
module CanonicalJson {
  import opened Texts
  import opened Ordering

  type Digit = x: int | 0 <= x < 10

  /** A finite number as `Number::toString` sees it: its shortest digits and the position of the
      decimal point, so that the value is 0.d1d2d3... times ten to the `point`.
      Zero has no digits, and minus zero is not told apart from zero. */
  datatype Number = Number(neg: bool, digits: seq<Digit>, point: int)

  /** A property of an object. */
  datatype Entry = Entry(key: Text, val: Json)

  /** A JSON value, or undefined. An object is the list of its own properties in the order in
      which ECMAScript enumerates them. */
  datatype Json =
    | Undefined
    | Null
    | Bool(b: bool)
    | Num(num: Number)
    | Str(text: Text)
    | Arr(items: seq<Json>)
    | Obj(fields: seq<Entry>)

  predicate ValidNumber(n: Number) {
    if n.digits == [] then n == Number(false, [], 0)
    else n.digits[0] != 0 && n.digits[|n.digits| - 1] != 0
  }

  ghost predicate DistinctKeys(fs: seq<Entry>) {
    forall i, j | 0 <= i < j < |fs| :: fs[i].key != fs[j].key
  }

  /** What every ECMAScript value satisfies: numbers in shortest form, property names distinct. */
  ghost predicate Valid(v: Json) {
    match v
    case Num(n) => ValidNumber(n)
    case Arr(items) => forall i | 0 <= i < |items| :: Valid(items[i])
    case Obj(fs) => DistinctKeys(fs) && forall i | 0 <= i < |fs| :: Valid(fs[i].val)
    case _ => true
  }

  /** What `walk` leaves: valid, and nowhere undefined. */
  ghost predicate Plain(v: Json) {
    match v
    case Undefined => false
    case Num(n) => ValidNumber(n)
    case Arr(items) => forall i | 0 <= i < |items| :: Plain(items[i])
    case Obj(fs) => forall i | 0 <= i < |fs| :: Plain(fs[i].val)
    case _ => true
  }

  // ----- walk -----

  /** The default comparison of `sort()`: by UTF-16 code units. */
  predicate UnitLeq(a: Text, b: Text) {
    a == [] || (b != [] && (a[0] < b[0] || (a[0] == b[0] && UnitLeq(a[1..], b[1..]))))
  }

  predicate EntryLeq(a: Entry, b: Entry) {
    UnitLeq(a.key, b.key)
  }

  /** An array index: a canonical decimal numeral up to 2^32 - 2. Enumeration puts these first. */
  predicate IsIndex(e: Entry) {
    && e.key != [] && AllDigits(e.key)
    && (e.key[0] != 48 || |e.key| == 1)
    && DecValue(e.key) <= 4294967294
  }

  predicate NotIndex(e: Entry) {
    !IsIndex(e)
  }

  predicate IndexLeq(a: Entry, b: Entry) {
    DecValue(a.key) <= DecValue(b.key)
  }

  /** `Object.fromEntries`: array indices in numeric order, then the other names as inserted. */
  function FromEntries(es: seq<Entry>): seq<Entry> {
    StableSort(IndexLeq, Filter(IsIndex, es)) + Filter(NotIndex, es)
  }

  function Walk(v: Json): Json {
    match v
    case Undefined => Null
    case Arr(items) => Arr(WalkItems(items))
    case Obj(fs) => Obj(FromEntries(StableSort(EntryLeq, WalkFields(fs))))
    case _ => v
  }

  function WalkItems(items: seq<Json>): (r: seq<Json>)
    ensures |r| == |items| && forall i | 0 <= i < |r| :: r[i] == Walk(items[i])
  {
    if items == [] then [] else [Walk(items[0])] + WalkItems(items[1..])
  }

  function WalkFields(fs: seq<Entry>): (r: seq<Entry>)
    ensures |r| == |fs| && forall i | 0 <= i < |r| :: r[i] == Entry(fs[i].key, Walk(fs[i].val))
  {
    if fs == [] then [] else [Entry(fs[0].key, Walk(fs[0].val))] + WalkFields(fs[1..])
  }

  // ----- JSON.stringify -----

  function Zeros(k: nat): (d: seq<Digit>)
    ensures |d| == k && forall i | 0 <= i < k :: d[i] == 0
  {
    seq(k, _ => 0)
  }

  /** Integer digits, fraction digits and exponent that `Number::toString` writes. */
  function Layout(n: Number): (seq<Digit>, seq<Digit>, int) {
    var d, k := n.digits, |n.digits|;
    if d == [] then ([0], [], 0)
    else if k <= n.point <= 21 then (d + Zeros(n.point - k), [], 0)
    else if 0 < n.point <= 21 then (d[..n.point], d[n.point..], 0)
    else if -6 < n.point <= 0 then ([0], Zeros(-n.point) + d, 0)
    else ([d[0]], d[1..], n.point - 1)
  }

  function DigitText(d: seq<Digit>): (t: Text)
    ensures |t| == |d| && AllDigits(t)
  {
    seq(|d|, i requires 0 <= i < |d| => var x: int := d[i]; 48 + x)
  }

  function ExponentText(e: int): Text {
    if e == 0 then [] else [101, if e > 0 then 43 else 45] + Dec(if e > 0 then e else -e)
  }

  function FractionText(frac: seq<Digit>): Text {
    if frac == [] then [] else [46] + DigitText(frac)
  }

  function Render(neg: bool, whole: seq<Digit>, frac: seq<Digit>, e: int): Text {
    (if neg then [45] else []) + (DigitText(whole) + (FractionText(frac) + ExponentText(e)))
  }

  function NumText(n: Number): Text {
    var l := Layout(n);
    Render(n.neg, l.0, l.1, l.2)
  }

  function HexDigit(x: int): (u: Unit)
    requires 0 <= x < 16
  {
    if x < 10 then 48 + x else 87 + x
  }

  function EscapeUnit(u: Unit): (t: Text)
    ensures t != []
  {
    if u == 34 || u == 92 then [92, u]
    else if u == 8 then [92, 98]
    else if u == 9 then [92, 116]
    else if u == 10 then [92, 110]
    else if u == 12 then [92, 102]
    else if u == 13 then [92, 114]
    else if u < 32 || IsHigh(u) || IsLow(u) then
      [92, 117, HexDigit(u / 4096), HexDigit(u / 256 % 16), HexDigit(u / 16 % 16), HexDigit(u % 16)]
    else [u]
  }

  /** Surrogate pairs are written as they are; lone surrogates are escaped. */
  function Escape(s: Text): Text {
    if s == [] then []
    else if StartsPair(s) then s[..2] + Escape(s[2..])
    else EscapeUnit(s[0]) + Escape(s[1..])
  }

  function Quote(s: Text): Text {
    [34] + Escape(s) + [34]
  }

  function Stringify(v: Json): Text {
    match v
    case Undefined => Ascii("null")
    case Null => Ascii("null")
    case Bool(b) => if b then Ascii("true") else Ascii("false")
    case Num(n) => NumText(n)
    case Str(s) => Quote(s)
    case Arr(items) => [91] + ItemsText(items, true)
    case Obj(fs) => [123] + FieldsText(fs, true)
  }

  function Separator(first: bool): Text {
    if first then [] else [44]
  }

  function ItemsText(items: seq<Json>, first: bool): Text {
    if items == [] then [93]
    else Separator(first) + (Stringify(items[0]) + ItemsText(items[1..], false))
  }

  /** Properties whose value is undefined are omitted. */
  function FieldsText(fs: seq<Entry>, first: bool): Text {
    if fs == [] then [125]
    else if fs[0].val.Undefined? then FieldsText(fs[1..], first)
    else Separator(first) + (Quote(fs[0].key) + ([58] + (Stringify(fs[0].val) + FieldsText(fs[1..], false))))
  }

  function Canonical(v: Json): Text {
    Stringify(Walk(v))
  }

  // ----- reading -----

  function ToDigits(t: Text): (d: seq<Digit>)
    requires AllDigits(t)
    ensures |d| == |t|
  {
    seq(|t|, i requires 0 <= i < |t| => t[i] - 48)
  }

  function StripLead(d: seq<Digit>, p: int): (seq<Digit>, int) {
    if d != [] && d[0] == 0 then StripLead(d[1..], p - 1) else (d, p)
  }

  function StripTrail(d: seq<Digit>): seq<Digit> {
    if d != [] && d[|d| - 1] == 0 then StripTrail(d[..|d| - 1]) else d
  }

  function Normalise(neg: bool, d: seq<Digit>, p: int): Number {
    var s := StripLead(d, p);
    var t := StripTrail(s.0);
    if t == [] then Number(false, [], 0) else Number(neg, t, s.1)
  }

  lemma {:induction false} DigitPrefix(t: Text)
    ensures AllDigits(t[..DigitCount(t)])
  {
    if t != [] && IsDigit(t[0]) {
      DigitPrefix(t[1..]);
      assert t[..DigitCount(t)] == [t[0]] + t[1..][..DigitCount(t[1..])];
    }
  }

  /** Reads a run of digits. */
  function ReadDigits(t: Text): (r: (seq<Digit>, Text))
    ensures |r.0| + |r.1| == |t|
  {
    DigitPrefix(t);
    (ToDigits(t[..DigitCount(t)]), t[DigitCount(t)..])
  }

  function ReadExponent(t: Text): (r: (int, Text))
    ensures |r.1| <= |t|
  {
    if |t| >= 2 && t[0] == 101 then
      var k := DigitCount(t[2..]);
      var e := DecValue(t[2..][..k]);
      (if t[1] == 45 then -e else e, t[2..][k..])
    else (0, t)
  }

  function ReadFraction(t: Text): (r: (seq<Digit>, Text))
    ensures |r.1| <= |t|
  {
    if t != [] && t[0] == 46 then ReadDigits(t[1..]) else ([], t)
  }

  function ReadNumber(t: Text): (r: Option<(Number, Text)>)
    ensures r.Some? ==> |r.value.1| < |t|
  {
    var neg := t != [] && t[0] == 45;
    var whole := ReadDigits(if neg then t[1..] else t);
    if whole.0 == [] then None else
      var frac := ReadFraction(whole.1);
      var e := ReadExponent(frac.1);
      Some((Normalise(neg, whole.0 + frac.0, |whole.0| + e.0), e.1))
  }

  function HexValue(u: Unit): Option<int> {
    if 48 <= u <= 57 then Some(u - 48) else if 97 <= u <= 102 then Some(u - 87) else None
  }

  function ReadHex(t: Text): (r: Option<Unit>)
    requires |t| >= 4
  {
    var a, b, c, d := HexValue(t[0]), HexValue(t[1]), HexValue(t[2]), HexValue(t[3]);
    if a.Some? && b.Some? && c.Some? && d.Some? then
      Some(4096 * a.value + 256 * b.value + 16 * c.value + d.value)
    else None
  }

  /** Reads one possibly escaped code unit of a string; the second component is its length. */
  function ReadUnit(t: Text): (r: Option<(Unit, nat)>)
    requires t != []
    ensures r.Some? ==> 1 <= r.value.1 <= |t|
  {
    if t[0] != 92 then (if t[0] < 32 then None else Some((t[0], 1)))
    else if |t| < 2 then None
    else if t[1] == 34 || t[1] == 92 || t[1] == 47 then Some((t[1], 2))
    else if t[1] == 98 then Some((8, 2))
    else if t[1] == 116 then Some((9, 2))
    else if t[1] == 110 then Some((10, 2))
    else if t[1] == 102 then Some((12, 2))
    else if t[1] == 114 then Some((13, 2))
    else if t[1] == 117 && |t| >= 6 && ReadHex(t[2..]).Some? then Some((ReadHex(t[2..]).value, 6))
    else None
  }

  /** Reads the rest of a string, up to and including the closing quote. */
  function ReadString(t: Text): (r: Option<(Text, Text)>)
    ensures r.Some? ==> |r.value.1| < |t|
    decreases |t|
  {
    if t == [] then None
    else if t[0] == 34 then Some(([], t[1..]))
    else match ReadUnit(t)
      case None => None
      case Some(u) =>
        match ReadString(t[u.1..])
        case None => None
        case Some(s) => Some(([u.0] + s.0, s.1))
  }

  function ReadWord(t: Text, word: Text, v: Json): (r: Option<(Json, Text)>)
    requires word != []
    ensures r.Some? ==> |r.value.1| < |t|
  {
    if word <= t then Some((v, t[|word|..])) else None
  }

  function ReadKeyword(t: Text): (r: Option<(Json, Text)>)
    requires t != []
    ensures r.Some? ==> |r.value.1| < |t|
  {
    if t[0] == 110 then ReadWord(t, Ascii("null"), Null)
    else if t[0] == 116 then ReadWord(t, Ascii("true"), Bool(true))
    else ReadWord(t, Ascii("false"), Bool(false))
  }

  function ReadValue(t: Text): (r: Option<(Json, Text)>)
    ensures r.Some? ==> |r.value.1| < |t|
    decreases |t|, 0
  {
    if t == [] then None
    else if t[0] == 45 || IsDigit(t[0]) then ReadNum(t)
    else if t[0] == 110 || t[0] == 116 || t[0] == 102 then ReadKeyword(t)
    else if t[0] == 34 then
      match ReadString(t[1..])
      case None => None
      case Some(s) => Some((Str(s.0), s.1))
    else if t[0] == 91 then
      match ReadItems(t[1..], true)
      case None => None
      case Some(s) => Some((Arr(s.0), s.1))
    else if t[0] == 123 then
      match ReadFields(t[1..], true)
      case None => None
      case Some(s) => Some((Obj(s.0), s.1))
    else None
  }

  function ReadNum(t: Text): (r: Option<(Json, Text)>)
    ensures r.Some? ==> |r.value.1| < |t|
  {
    match ReadNumber(t)
    case None => None
    case Some(n) => Some((Num(n.0), n.1))
  }

  function ReadItems(t: Text, first: bool): (r: Option<(seq<Json>, Text)>)
    ensures r.Some? ==> |r.value.1| < |t|
    decreases |t|, 1
  {
    if t == [] then None
    else if t[0] == 93 then Some(([], t[1..]))
    else if !first && t[0] != 44 then None
    else
      match ReadValue(if first then t else t[1..])
      case None => None
      case Some(v) =>
        match ReadItems(v.1, false)
        case None => None
        case Some(s) => Some(([v.0] + s.0, s.1))
  }

  function ReadFields(t: Text, first: bool): (r: Option<(seq<Entry>, Text)>)
    ensures r.Some? ==> |r.value.1| < |t|
    decreases |t|, 1
  {
    if t == [] then None
    else if t[0] == 125 then Some(([], t[1..]))
    else if !first && t[0] != 44 then None
    else
      match ReadField(if first then t else t[1..])
      case None => None
      case Some(f) =>
        match ReadFields(f.1, false)
        case None => None
        case Some(s) => Some(([f.0] + s.0, s.1))
  }

  /** Reads a property name, a colon and a value. */
  function ReadField(t: Text): (r: Option<(Entry, Text)>)
    ensures r.Some? ==> |r.value.1| < |t|
    decreases |t|, 0
  {
    match ReadName(t)
    case None => None
    case Some(k) =>
      match ReadValue(k.1)
      case None => None
      case Some(v) => Some((Entry(k.0, v.0), v.1))
  }

  function ReadName(t: Text): (r: Option<(Text, Text)>)
    ensures r.Some? ==> |r.value.1| < |t|
  {
    if t == [] || t[0] != 34 then None else
      match ReadString(t[1..])
      case None => None
      case Some(k) => if k.1 == [] || k.1[0] != 58 then None else Some((k.0, k.1[1..]))
  }

  /** Reads a complete text as one value. */
  function Parse(t: Text): Option<Json> {
    match ReadValue(t)
    case None => None
    case Some(v) => if v.1 == [] then Some(v.0) else None
  }

  // ----- reading back numbers -----

  lemma {:induction false} StripLeadZeros(k: nat, d: seq<Digit>, p: int)
    requires d != [] && d[0] != 0
    ensures StripLead(Zeros(k) + d, p) == (d, p - k)
  {
    var z := Zeros(k) + d;
    if k == 0 {
      assert z == d;
    } else {
      assert z[1..] == Zeros(k - 1) + d;
      StripLeadZeros(k - 1, d, p - 1);
    }
  }

  lemma {:induction false} StripTrailZeros(d: seq<Digit>, k: nat)
    requires d != [] && d[|d| - 1] != 0
    ensures StripTrail(d + Zeros(k)) == d
  {
    var z := d + Zeros(k);
    if k == 0 {
      assert z == d;
    } else {
      assert z[..|z| - 1] == d + Zeros(k - 1);
      StripTrailZeros(d, k - 1);
    }
  }

  /** Digits between runs of zeros normalise to the digits. */
  lemma NormalisePadded(neg: bool, z: nat, d: seq<Digit>, y: nat, p: int)
    requires d != [] && d[0] != 0 && d[|d| - 1] != 0
    ensures Normalise(neg, Zeros(z) + (d + Zeros(y)), p) == Number(neg, d, p - z)
  {
    StripLeadZeros(z, d + Zeros(y), p);
    StripTrailZeros(d, y);
  }

  lemma NormaliseZero(neg: bool, p: int)
    ensures Normalise(neg, [0], p) == Number(false, [], 0)
  {
    var d: seq<Digit> := [0];
    assert d[1..] == [];
    assert StripLead(d, p) == StripLead([], p - 1) == ([], p - 1);
  }

  /** Where `Number::toString` puts zeros around the digits. */
  function Padding(n: Number): (nat, nat) {
    (if -6 < n.point <= 0 then 1 - n.point else 0,
     if |n.digits| <= n.point <= 21 then n.point - |n.digits| else 0)
  }

  lemma LayoutPads(n: Number)
    requires ValidNumber(n) && n.digits != []
    ensures Layout(n).0 != []
    ensures Layout(n).0 + Layout(n).1 == Zeros(Padding(n).0) + (n.digits + Zeros(Padding(n).1))
    ensures |Layout(n).0| + Layout(n).2 - Padding(n).0 == n.point
  {
  }

  lemma NormaliseLayout(n: Number)
    requires ValidNumber(n)
    ensures Layout(n).0 != []
    ensures Normalise(n.neg, Layout(n).0 + Layout(n).1, |Layout(n).0| + Layout(n).2) == n
  {
    if n.digits == [] {
      assert Layout(n).0 + Layout(n).1 == [0];
      NormaliseZero(n.neg, 1);
    } else {
      LayoutPads(n);
      NormalisePadded(n.neg, Padding(n).0, n.digits, Padding(n).1, |Layout(n).0| + Layout(n).2);
    }
  }

  predicate Delimited(rest: Text) {
    rest == [] || (!IsDigit(rest[0]) && rest[0] != 46 && rest[0] != 101)
  }

  lemma ReadDigitsBack(d: seq<Digit>, rest: Text)
    requires rest == [] || !IsDigit(rest[0])
    ensures ReadDigits(DigitText(d) + rest) == (d, rest)
  {
    var t := DigitText(d) + rest;
    DigitCountAppend(DigitText(d), rest);
    assert t[..|d|] == DigitText(d) && t[|d|..] == rest;
    assert ToDigits(DigitText(d)) == d;
  }

  lemma ReadExponentBack(e: int, rest: Text)
    requires Delimited(rest)
    ensures ReadExponent(ExponentText(e) + rest) == (e, rest)
  {
    if e != 0 {
      var m := Dec(if e > 0 then e else -e);
      var t := ExponentText(e) + rest;
      assert t[2..] == m + rest;
      DigitCountAppend(m, rest);
      assert (m + rest)[..|m|] == m && (m + rest)[|m|..] == rest;
      DecValueOfDec(if e > 0 then e else -e);
    } else {
      assert ExponentText(e) + rest == rest;
    }
  }

  lemma ReadFractionBack(frac: seq<Digit>, rest: Text)
    requires rest == [] || (!IsDigit(rest[0]) && rest[0] != 46)
    ensures ReadFraction(FractionText(frac) + rest) == (frac, rest)
  {
    if frac == [] {
      assert [] + rest == rest;
    } else {
      Prefixed(46, DigitText(frac), rest);
      ReadDigitsBack(frac, rest);
    }
  }

  lemma ReadUnsigned(whole: seq<Digit>, frac: seq<Digit>, e: int, rest: Text)
    requires whole != [] && Delimited(rest)
    ensures var body := DigitText(whole) + (FractionText(frac) + (ExponentText(e) + rest));
            && body != [] && IsDigit(body[0])
            && ReadDigits(body) == (whole, FractionText(frac) + (ExponentText(e) + rest))
    ensures ReadFraction(FractionText(frac) + (ExponentText(e) + rest)) == (frac, ExponentText(e) + rest)
    ensures ReadExponent(ExponentText(e) + rest) == (e, rest)
  {
    var x := ExponentText(e) + rest;
    assert e == 0 ==> x == rest;
    assert x == [] || (!IsDigit(x[0]) && x[0] != 46);
    var f := FractionText(frac) + x;
    assert frac == [] ==> f == x;
    assert f == [] || !IsDigit(f[0]);
    ReadDigitsBack(whole, f);
    ReadFractionBack(frac, x);
    ReadExponentBack(e, rest);
  }

  lemma RenderAssoc(whole: Text, frac: Text, e: Text, rest: Text)
    ensures (whole + (frac + e)) + rest == whole + (frac + (e + rest))
  {
  }

  lemma ReadNumberStep(t: Text, body: Text, neg: bool, whole: seq<Digit>, f: Text, frac: seq<Digit>,
                       x: Text, e: int, rest: Text)
    requires t != [] && neg == (t[0] == 45) && body == (if neg then t[1..] else t)
    requires whole != [] && ReadDigits(body) == (whole, f)
    requires ReadFraction(f) == (frac, x) && ReadExponent(x) == (e, rest)
    ensures ReadNumber(t) == Some((Normalise(neg, whole + frac, |whole| + e), rest))
  {
  }

  lemma ReadRendered(neg: bool, whole: seq<Digit>, frac: seq<Digit>, e: int, rest: Text)
    requires whole != [] && Delimited(rest)
    ensures ReadNumber(Render(neg, whole, frac, e) + rest)
         == Some((Normalise(neg, whole + frac, |whole| + e), rest))
  {
    var x := ExponentText(e) + rest;
    var f := FractionText(frac) + x;
    var body := DigitText(whole) + f;
    var plain := DigitText(whole) + (FractionText(frac) + ExponentText(e));
    RenderAssoc(DigitText(whole), FractionText(frac), ExponentText(e), rest);
    assert plain + rest == body;
    ReadUnsigned(whole, frac, e, rest);
    var t := Render(neg, whole, frac, e) + rest;
    assert t != [] && neg == (t[0] == 45) && body == (if neg then t[1..] else t) by {
      if neg {
        Prefixed(45, plain, rest);
      } else {
        assert [] + plain == plain;
      }
    }
    ReadNumberStep(t, body, neg, whole, f, frac, x, e, rest);
  }

  lemma ReadNumberBack(n: Number, rest: Text)
    requires ValidNumber(n) && Delimited(rest)
    ensures ReadNumber(NumText(n) + rest) == Some((n, rest))
  {
    NormaliseLayout(n);
    var (whole, frac, e) := Layout(n);
    assert NumText(n) == Render(n.neg, whole, frac, e);
    ReadRendered(n.neg, whole, frac, e, rest);
  }

  // ----- reading back strings -----

  lemma HexBack(u: Unit)
    ensures 4096 * (u / 4096) + 256 * (u / 256 % 16) + 16 * (u / 16 % 16) + u % 16 == u
    ensures u / 4096 < 16
  {
    assert u / 256 == u / 16 / 16 && u / 4096 == u / 256 / 16;
  }

  lemma ReadUnitBack(u: Unit, rest: Text)
    ensures EscapeUnit(u)[0] != 34
    ensures ReadUnit(EscapeUnit(u) + rest) == Some((u, |EscapeUnit(u)|))
  {
    var t := EscapeUnit(u) + rest;
    assert forall i | 0 <= i < |EscapeUnit(u)| :: t[i] == EscapeUnit(u)[i];
    if |EscapeUnit(u)| == 6 {
      HexBack(u);
      assert t[2..][0] == t[2] && t[2..][1] == t[3] && t[2..][2] == t[4] && t[2..][3] == t[5];
    }
  }

  lemma ReadStringStep(t: Text, u: Unit, k: nat, s: Text, rest: Text)
    requires t != [] && t[0] != 34 && k <= |t|
    requires ReadUnit(t) == Some((u, k)) && ReadString(t[k..]) == Some((s, rest))
    ensures ReadString(t) == Some(([u] + s, rest))
  {
  }

  lemma ReadPair(a: Unit, b: Unit, s: Text, t: Text, rest: Text)
    requires IsHigh(a) && IsLow(b)
    requires ReadString(t) == Some((s, rest))
    ensures ReadString([a, b] + t) == Some(([a, b] + s, rest))
  {
    assert ([b] + t)[1..] == t;
    ReadStringStep([b] + t, b, 1, s, rest);
    assert ([a, b] + t)[1..] == [b] + t;
    ReadStringStep([a, b] + t, a, 1, [b] + s, rest);
    assert [a] + ([b] + s) == [a, b] + s;
  }

  lemma {:induction false} ReadStringBack(s: Text, rest: Text)
    ensures ReadString(Escape(s) + ([34] + rest)) == Some((s, rest))
  {
    var end := [34] + rest;
    if s == [] {
      assert Escape(s) + end == end && end[1..] == rest;
    } else {
      var k := HeadLength(s);
      ReadStringBack(s[k..], rest);
      var t := Escape(s[k..]) + end;
      if k == 2 {
        Assoc(s[..2], Escape(s[2..]), end);
        assert s[..2] == [s[0], s[1]];
        assert s == [s[0], s[1]] + s[2..];
        ReadPair(s[0], s[1], s[2..], t, rest);
      } else {
        Assoc(EscapeUnit(s[0]), Escape(s[1..]), end);
        assert s == [s[0]] + s[1..];
        ReadEscaped(s[0], s[1..], t, rest);
      }
    }
  }

  lemma ReadEscaped(u: Unit, s: Text, t: Text, rest: Text)
    requires ReadString(t) == Some((s, rest))
    ensures ReadString(EscapeUnit(u) + t) == Some(([u] + s, rest))
  {
    var e := EscapeUnit(u);
    ReadUnitBack(u, t);
    assert (e + t)[|e|..] == t && (e + t)[0] == e[0];
    ReadStringStep(e + t, u, |e|, s, rest);
  }

  // ----- reading back values -----

  lemma FirstUnit(v: Json)
    requires Plain(v)
    ensures var t := Stringify(v);
            && t != [] && t[0] != 93 && t[0] != 125 && t[0] != 44
            && (v.Num? ==> t[0] == 45 || IsDigit(t[0]))
  {
    if v.Num? {
      assert DigitText(Layout(v.num).0) != [];
    }
  }

  lemma ReadWordBack(word: Text, v: Json, rest: Text)
    requires word != []
    ensures ReadWord(word + rest, word, v) == Some((v, rest))
  {
    assert word <= word + rest && (word + rest)[|word|..] == rest;
  }

  lemma ReadLeafBack(v: Json, rest: Text)
    requires Plain(v) && Delimited(rest)
    requires v.Null? || v.Bool?
    ensures ReadValue(Stringify(v) + rest) == Some((v, rest))
  {
    var w := Stringify(v);
    ReadWordBack(w, v, rest);
    assert (w + rest)[0] == w[0];
  }

  lemma ReadQuotedBack(s: Text, rest: Text)
    ensures var t := Quote(s) + rest;
            t != [] && t[0] == 34 && ReadString(t[1..]) == Some((s, rest))
  {
    Assoc([34], Escape(s), [34]);
    Prefixed(34, Escape(s) + [34], rest);
    Assoc(Escape(s), [34], rest);
    ReadStringBack(s, rest);
  }

  /** Which reader a text goes to depends on its first unit only. */
  lemma DispatchString(t: Text, s: Text, rest: Text)
    requires t != [] && t[0] == 34 && ReadString(t[1..]) == Some((s, rest))
    ensures ReadValue(t) == Some((Str(s), rest))
  {
  }

  lemma DispatchItems(t: Text, items: seq<Json>, rest: Text)
    requires t != [] && t[0] == 91 && ReadItems(t[1..], true) == Some((items, rest))
    ensures ReadValue(t) == Some((Arr(items), rest))
  {
  }

  lemma DispatchFields(t: Text, fs: seq<Entry>, rest: Text)
    requires t != [] && t[0] == 123 && ReadFields(t[1..], true) == Some((fs, rest))
    ensures ReadValue(t) == Some((Obj(fs), rest))
  {
  }

  lemma DispatchNumber(t: Text)
    requires t != [] && (t[0] == 45 || IsDigit(t[0]))
    ensures ReadValue(t) == ReadNum(t)
  {
  }

  /** Every written value is read back, and the text that follows it is left over. */
  lemma {:induction false} ReadBack(v: Json, rest: Text)
    requires Plain(v) && Delimited(rest)
    ensures ReadValue(Stringify(v) + rest) == Some((v, rest))
    decreases v, 1
  {
    match v {
      case Arr(items) =>
        Prefixed(91, ItemsText(items, true), rest);
        ReadItemsBack(items, true, rest);
        DispatchItems(Stringify(v) + rest, items, rest);
      case Obj(fs) =>
        Prefixed(123, FieldsText(fs, true), rest);
        ReadFieldsBack(fs, true, rest);
        DispatchFields(Stringify(v) + rest, fs, rest);
      case Str(s) =>
        ReadQuotedBack(s, rest);
        DispatchString(Stringify(v) + rest, s, rest);
      case Num(n) =>
        FirstUnit(v);
        assert (NumText(n) + rest)[0] == NumText(n)[0];
        ReadNumberBack(n, rest);
        DispatchNumber(NumText(n) + rest);
      case _ =>
        ReadLeafBack(v, rest);
    }
  }

  lemma {:induction false} ReadItemsBack(items: seq<Json>, first: bool, rest: Text)
    requires forall i | 0 <= i < |items| :: Plain(items[i])
    ensures ReadItems(ItemsText(items, first) + rest, first) == Some((items, rest))
    decreases items, 0
  {
    var t := ItemsText(items, first) + rest;
    if items != [] {
      var tail := ItemsText(items[1..], false) + rest;
      ReadBack(items[0], tail);
      ReadItemsBack(items[1..], false, rest);
      ReadItemsStep(items, first, rest, tail);
    } else {
      assert t == [93] + rest;
    }
  }

  lemma ReadItemsStep(items: seq<Json>, first: bool, rest: Text, tail: Text)
    requires items != [] && Plain(items[0])
    requires tail == ItemsText(items[1..], false) + rest
    requires ReadValue(Stringify(items[0]) + tail) == Some((items[0], tail))
    requires ReadItems(tail, false) == Some((items[1..], rest))
    ensures ReadItems(ItemsText(items, first) + rest, first) == Some((items, rest))
  {
    var v, w := Stringify(items[0]), ItemsText(items[1..], false);
    Assoc(Separator(first), v + w, rest);
    Assoc(v, w, rest);
    FirstUnit(items[0]);
    assert (v + tail)[0] == v[0];
    ReadItemsOne(v + tail, first, items[0], items[1..], tail, rest);
    assert items == [items[0]] + items[1..];
  }

  lemma ReadItemsOne(u: Text, first: bool, v: Json, items: seq<Json>, tail: Text, rest: Text)
    requires u != [] && u[0] != 93 && u[0] != 44
    requires ReadValue(u) == Some((v, tail)) && ReadItems(tail, false) == Some((items, rest))
    ensures ReadItems(Separator(first) + u, first) == Some(([v] + items, rest))
  {
    var t := Separator(first) + u;
    assert (if first then t else t[1..]) == u;
  }

  lemma ReadNameBack(k: Text, rest: Text)
    ensures ReadName(Quote(k) + ([58] + rest)) == Some((k, rest))
  {
    ReadQuotedBack(k, [58] + rest);
    assert ([58] + rest)[1..] == rest;
  }

  lemma {:induction false} ReadFieldsBack(fs: seq<Entry>, first: bool, rest: Text)
    requires forall i | 0 <= i < |fs| :: Plain(fs[i].val)
    ensures ReadFields(FieldsText(fs, first) + rest, first) == Some((fs, rest))
    decreases fs, 0
  {
    var t := FieldsText(fs, first) + rest;
    if fs != [] {
      var f := fs[0];
      var tail := FieldsText(fs[1..], false) + rest;
      ReadBack(f.val, tail);
      ReadFieldsBack(fs[1..], false, rest);
      ReadFieldsStep(fs, first, rest, tail);
    } else {
      assert t == [125] + rest;
    }
  }

  lemma FieldsTextShape(fs: seq<Entry>, first: bool, rest: Text)
    requires fs != [] && !fs[0].val.Undefined?
    ensures FieldsText(fs, first) + rest
         == Separator(first)
          + (Quote(fs[0].key) + ([58] + (Stringify(fs[0].val) + (FieldsText(fs[1..], false) + rest))))
  {
    var q, v, w := Quote(fs[0].key), Stringify(fs[0].val), FieldsText(fs[1..], false);
    Assoc(Separator(first), q + ([58] + (v + w)), rest);
    Assoc(q, [58] + (v + w), rest);
    Assoc([58], v + w, rest);
    Assoc(v, w, rest);
  }

  lemma ReadFieldsStep(fs: seq<Entry>, first: bool, rest: Text, tail: Text)
    requires fs != [] && !fs[0].val.Undefined?
    requires tail == FieldsText(fs[1..], false) + rest
    requires ReadValue(Stringify(fs[0].val) + tail) == Some((fs[0].val, tail))
    requires ReadFields(tail, false) == Some((fs[1..], rest))
    ensures ReadFields(FieldsText(fs, first) + rest, first) == Some((fs, rest))
  {
    var f, value := fs[0], Stringify(fs[0].val) + tail;
    var u := Quote(f.key) + ([58] + value);
    FieldsTextShape(fs, first, rest);
    ReadNameBack(f.key, value);
    ReadQuotedBack(f.key, [58] + value);
    ReadFieldsOne(u, first, f, fs[1..], tail, rest);
    assert fs == [f] + fs[1..];
  }

  lemma ReadFieldsOne(u: Text, first: bool, f: Entry, fs: seq<Entry>, tail: Text, rest: Text)
    requires u != [] && u[0] == 34
    requires ReadField(u) == Some((f, tail))
    requires ReadFields(tail, false) == Some((fs, rest))
    ensures ReadFields(Separator(first) + u, first) == Some(([f] + fs, rest))
  {
    var t := Separator(first) + u;
    assert (if first then t else t[1..]) == u;
  }
}
