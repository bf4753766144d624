/** What a canonical text determines: exactly the value, with objects read as finite maps. */
module CanonicalMeaning {
  import opened Texts
  import opened Ordering
  import opened CanonicalJson

  /** The value a JSON text stands for; undefined stands for null and properties have no order. */
  datatype Meaning =
    | NullM
    | BoolM(b: bool)
    | NumM(num: Number)
    | StrM(text: Text)
    | ArrM(items: seq<Meaning>)
    | ObjM(fields: map<Text, Meaning>)

  ghost function MeaningOf(v: Json): Meaning {
    match v
    case Undefined => NullM
    case Null => NullM
    case Bool(b) => BoolM(b)
    case Num(n) => NumM(n)
    case Str(s) => StrM(s)
    case Arr(items) => ArrM(ItemMeanings(items))
    case Obj(fs) => ObjM(FieldMeanings(fs))
  }

  ghost function ItemMeanings(items: seq<Json>): (r: seq<Meaning>)
    ensures |r| == |items| && forall i | 0 <= i < |r| :: r[i] == MeaningOf(items[i])
  {
    if items == [] then [] else [MeaningOf(items[0])] + ItemMeanings(items[1..])
  }

  ghost function FieldMeanings(fs: seq<Entry>): map<Text, Meaning> {
    if fs == [] then map[] else FieldMeanings(fs[1..])[fs[0].key := MeaningOf(fs[0].val)]
  }

  lemma {:induction false} FieldMeaningsAt(fs: seq<Entry>)
    requires DistinctKeys(fs)
    ensures forall k :: k in FieldMeanings(fs) <==> exists i :: 0 <= i < |fs| && fs[i].key == k
    ensures forall i | 0 <= i < |fs| ::
              fs[i].key in FieldMeanings(fs) && FieldMeanings(fs)[fs[i].key] == MeaningOf(fs[i].val)
  {
    if fs != [] {
      var rest := fs[1..];
      FieldMeaningsAt(rest);
      forall i | 0 <= i < |fs|
        ensures fs[i].key in FieldMeanings(fs) && FieldMeanings(fs)[fs[i].key] == MeaningOf(fs[i].val)
      {
        if i > 0 {
          assert rest[i - 1] == fs[i];
        }
      }
      forall k | k in FieldMeanings(fs) ensures exists i :: 0 <= i < |fs| && fs[i].key == k {
        if k != fs[0].key {
          var i :| 0 <= i < |rest| && rest[i].key == k;
          assert fs[i + 1].key == k;
        }
      }
    }
  }

  // ----- walking an object only rearranges its properties -----

  lemma Rearranged(es: seq<Entry>)
    ensures multiset(FromEntries(StableSort(EntryLeq, es))) == multiset(es)
  {
    var s := StableSort(EntryLeq, es);
    SortMultiset(EntryLeq, es);
    FilterPartition(IsIndex, NotIndex, s);
    SortMultiset(IndexLeq, Filter(IsIndex, s));
  }

  lemma SameMembers<T>(xs: seq<T>, ys: seq<T>)
    requires multiset(xs) == multiset(ys)
    ensures |xs| == |ys|
    ensures forall x :: x in xs <==> x in ys
  {
    assert |multiset(xs)| == |xs| && |multiset(ys)| == |ys|;
    forall x ensures x in xs <==> x in ys {
      assert x in xs <==> x in multiset(xs);
      assert x in ys <==> x in multiset(ys);
    }
  }

  lemma DistinctWithout(xs: seq<Entry>, k: nat)
    requires k < |xs| && DistinctKeys(xs)
    ensures DistinctKeys(Without(xs, k))
    ensures forall e | e in Without(xs, k) :: e.key != xs[k].key
  {
  }

  lemma DistinctHeadTail(ys: seq<Entry>)
    requires ys != [] && DistinctKeys(ys[1..])
    requires forall e | e in ys[1..] :: e.key != ys[0].key
    ensures DistinctKeys(ys)
  {
    forall i, j | 0 <= i < j < |ys| ensures ys[i].key != ys[j].key {
      assert ys[j] == ys[1..][j - 1];
      if i > 0 { assert ys[i] == ys[1..][i - 1]; }
    }
  }

  lemma RemoveHead(xs: seq<Entry>, ys: seq<Entry>) returns (zs: seq<Entry>)
    requires ys != [] && multiset(xs) == multiset(ys) && DistinctKeys(xs)
    ensures multiset(zs) == multiset(ys[1..]) && DistinctKeys(zs)
    ensures forall e | e in zs :: e.key != ys[0].key
  {
    assert ys[0] in multiset(xs);
    var k :| 0 <= k < |xs| && xs[k] == ys[0];
    zs := Without(xs, k);
    WithoutMultiset(xs, k);
    WithoutMultiset(ys, 0);
    assert Without(ys, 0) == ys[1..];
    DistinctWithout(xs, k);
  }

  /** Distinct names survive a rearrangement. */
  lemma {:induction false} DistinctOfRearranged(xs: seq<Entry>, ys: seq<Entry>)
    requires multiset(xs) == multiset(ys) && DistinctKeys(xs)
    ensures DistinctKeys(ys)
    decreases ys
  {
    if ys != [] {
      var zs := RemoveHead(xs, ys);
      DistinctOfRearranged(zs, ys[1..]);
      SameMembers(zs, ys[1..]);
      DistinctHeadTail(ys);
    }
  }

  lemma WalkedFields(fs: seq<Entry>)
    requires DistinctKeys(fs)
    ensures DistinctKeys(WalkFields(fs))
    ensures DistinctKeys(FromEntries(StableSort(EntryLeq, WalkFields(fs))))
    ensures |FromEntries(StableSort(EntryLeq, WalkFields(fs)))| == |fs|
    ensures forall e :: e in FromEntries(StableSort(EntryLeq, WalkFields(fs))) <==> e in WalkFields(fs)
  {
    var w := WalkFields(fs);
    var r := FromEntries(StableSort(EntryLeq, w));
    Rearranged(w);
    DistinctOfRearranged(w, r);
    SameMembers(w, r);
  }

  /** `walk` removes every undefined and keeps a value valid. */
  lemma {:induction false} PlainOfWalk(v: Json)
    requires Valid(v)
    ensures Plain(Walk(v)) && Valid(Walk(v))
  {
    match v {
      case Arr(items) =>
        forall i | 0 <= i < |items| ensures Plain(Walk(items[i])) && Valid(Walk(items[i])) {
          PlainOfWalk(items[i]);
        }
      case Obj(fs) =>
        forall i | 0 <= i < |fs| ensures Plain(Walk(fs[i].val)) && Valid(Walk(fs[i].val)) {
          PlainOfWalk(fs[i].val);
        }
        WalkedFields(fs);
        var r := Walk(v).fields;
        forall j | 0 <= j < |r| ensures Plain(r[j].val) && Valid(r[j].val) {
          assert r[j] in WalkFields(fs);
        }
      case _ =>
    }
  }

  /** Parsing the canonical text of a value gives back its normal form. */
  lemma CanonicalRoundTrip(v: Json)
    requires Valid(v)
    ensures Parse(Canonical(v)) == Some(Walk(v))
  {
    PlainOfWalk(v);
    ReadBack(Walk(v), []);
    assert Canonical(v) + [] == Canonical(v);
  }

  /** The normal form means what the value means. */
  lemma {:induction false} MeaningOfWalk(v: Json)
    requires Valid(v)
    ensures MeaningOf(Walk(v)) == MeaningOf(v)
  {
    match v {
      case Arr(items) =>
        forall i | 0 <= i < |items| ensures MeaningOf(Walk(items[i])) == MeaningOf(items[i]) {
          MeaningOfWalk(items[i]);
        }
        assert ItemMeanings(WalkItems(items)) == ItemMeanings(items);
      case Obj(fs) =>
        forall i | 0 <= i < |fs| ensures MeaningOf(Walk(fs[i].val)) == MeaningOf(fs[i].val) {
          MeaningOfWalk(fs[i].val);
        }
        FieldMeaningsOfWalk(fs);
      case _ =>
    }
  }

  ghost predicate MeaningsInto(fs: seq<Entry>, gs: seq<Entry>) {
    forall i | 0 <= i < |fs| :: HasSame(fs[i], gs)
  }

  ghost predicate HasSame(f: Entry, gs: seq<Entry>) {
    exists j :: 0 <= j < |gs| && SameEntry(f, gs[j])
  }

  ghost predicate SameEntry(f: Entry, g: Entry) {
    f.key == g.key && MeaningOf(f.val) == MeaningOf(g.val)
  }

  lemma FieldMeaningsInto(fs: seq<Entry>, gs: seq<Entry>)
    requires DistinctKeys(fs) && DistinctKeys(gs) && MeaningsInto(fs, gs)
    ensures forall k | k in FieldMeanings(fs) ::
              k in FieldMeanings(gs) && FieldMeanings(gs)[k] == FieldMeanings(fs)[k]
  {
    FieldMeaningsAt(fs);
    FieldMeaningsAt(gs);
    forall k | k in FieldMeanings(fs)
      ensures k in FieldMeanings(gs) && FieldMeanings(gs)[k] == FieldMeanings(fs)[k]
    {
      var i :| 0 <= i < |fs| && fs[i].key == k;
      assert HasSame(fs[i], gs);
      var j :| 0 <= j < |gs| && SameEntry(fs[i], gs[j]);
    }
  }

  lemma IntoForward(fs: seq<Entry>, w: seq<Entry>, r: seq<Entry>)
    requires |w| == |fs| && forall i | 0 <= i < |fs| :: SameEntry(fs[i], w[i])
    requires forall e | e in w :: e in r
    ensures MeaningsInto(fs, r)
  {
    forall i | 0 <= i < |fs| ensures HasSame(fs[i], r) {
      assert w[i] in w && w[i] in r;
      var j :| 0 <= j < |r| && r[j] == w[i];
      assert SameEntry(fs[i], r[j]);
    }
  }

  lemma IntoBackward(fs: seq<Entry>, w: seq<Entry>, r: seq<Entry>)
    requires |w| == |fs| && forall i | 0 <= i < |fs| :: SameEntry(fs[i], w[i])
    requires forall e | e in r :: e in w
    ensures MeaningsInto(r, fs)
  {
    forall j | 0 <= j < |r| ensures HasSame(r[j], fs) {
      assert r[j] in r && r[j] in w;
      var i :| 0 <= i < |w| && w[i] == r[j];
      assert SameEntry(r[j], fs[i]);
    }
  }

  /** `r` holds the properties of `fs` in some order, with values that mean the same. */
  lemma SameFieldMeanings(fs: seq<Entry>, w: seq<Entry>, r: seq<Entry>)
    requires DistinctKeys(fs) && DistinctKeys(r)
    requires |w| == |fs| && forall i | 0 <= i < |fs| :: SameEntry(fs[i], w[i])
    requires forall e :: e in r <==> e in w
    ensures FieldMeanings(r) == FieldMeanings(fs)
  {
    IntoForward(fs, w, r);
    IntoBackward(fs, w, r);
    FieldMeaningsInto(fs, r);
    FieldMeaningsInto(r, fs);
  }

  lemma FieldMeaningsOfWalk(fs: seq<Entry>)
    requires DistinctKeys(fs)
    requires forall i | 0 <= i < |fs| :: MeaningOf(Walk(fs[i].val)) == MeaningOf(fs[i].val)
    ensures FieldMeanings(FromEntries(StableSort(EntryLeq, WalkFields(fs)))) == FieldMeanings(fs)
  {
    WalkedFields(fs);
    SameFieldMeanings(fs, WalkFields(fs), FromEntries(StableSort(EntryLeq, WalkFields(fs))));
  }

  // ----- equal meanings have equal normal forms -----

  lemma {:induction false} UnitLeqTotal(a: Text, b: Text)
    ensures UnitLeq(a, b) || UnitLeq(b, a)
    ensures UnitLeq(a, b) && UnitLeq(b, a) ==> a == b
  {
    if a != [] && b != [] && a[0] == b[0] {
      UnitLeqTotal(a[1..], b[1..]);
      assert a == [a[0]] + a[1..] && b == [b[0]] + b[1..];
    }
  }

  lemma {:induction false} UnitLeqChains(a: Text, b: Text, c: Text)
    requires UnitLeq(a, b) && UnitLeq(b, c)
    ensures UnitLeq(a, c)
  {
    if a != [] && a[0] == b[0] == c[0] {
      UnitLeqChains(a[1..], b[1..], c[1..]);
    }
  }

  lemma EntryOrder()
    ensures TotalPreorder(EntryLeq)
  {
    forall a, b ensures Comparable(EntryLeq, a, b) {
      UnitLeqTotal(a.key, b.key);
    }
    forall a, b, c ensures Chains(EntryLeq, a, b, c) {
      if EntryLeq(a, b) && EntryLeq(b, c) {
        UnitLeqChains(a.key, b.key, c.key);
      }
    }
  }

  /** Distinctly named properties have one sorted arrangement. */
  lemma SortedOnce(es: seq<Entry>, gs: seq<Entry>)
    requires DistinctKeys(es) && multiset(es) == multiset(gs)
    ensures StableSort(EntryLeq, es) == StableSort(EntryLeq, gs)
  {
    EntryOrder();
    forall a, b | a in es && b in es && Tied(EntryLeq, a, b) ensures a == b {
      UnitLeqTotal(a.key, b.key);
    }
    SortUnique(EntryLeq, es, gs);
  }

  lemma {:induction false} DistinctMultiset(es: seq<Entry>)
    requires DistinctKeys(es)
    ensures forall e :: multiset(es)[e] == if e in es then 1 else 0
  {
    if es != [] {
      HeadTail(es);
      DistinctMultiset(es[1..]);
      forall e ensures multiset(es)[e] == if e in es then 1 else 0 {
        assert e in es[1..] ==> e.key != es[0].key;
      }
    }
  }

  lemma {:induction false} WalkOfMeaning(v: Json, w: Json)
    requires Valid(v) && Valid(w)
    requires MeaningOf(v) == MeaningOf(w)
    ensures Walk(v) == Walk(w)
  {
    match v {
      case Arr(items) =>
        forall i | 0 <= i < |items| ensures Walk(items[i]) == Walk(w.items[i]) {
          assert ItemMeanings(items)[i] == ItemMeanings(w.items)[i];
          WalkOfMeaning(items[i], w.items[i]);
        }
        assert |items| == |ItemMeanings(items)|;
        assert WalkItems(items) == WalkItems(w.items);
      case Obj(fs) =>
        var gs := w.fields;
        forall i, j | 0 <= i < |fs| && 0 <= j < |gs| && MeaningOf(fs[i].val) == MeaningOf(gs[j].val)
          ensures Walk(fs[i].val) == Walk(gs[j].val)
        {
          WalkOfMeaning(fs[i].val, gs[j].val);
        }
        WalkedAlike(fs, gs);
      case _ =>
    }
  }

  lemma WalkedAlike(fs: seq<Entry>, gs: seq<Entry>)
    requires DistinctKeys(fs) && DistinctKeys(gs)
    requires FieldMeanings(fs) == FieldMeanings(gs)
    requires forall i, j | 0 <= i < |fs| && 0 <= j < |gs| && MeaningOf(fs[i].val) == MeaningOf(gs[j].val) ::
               Walk(fs[i].val) == Walk(gs[j].val)
    ensures Walk(Obj(fs)) == Walk(Obj(gs))
  {
    WalkedInto(fs, gs);
    WalkedInto(gs, fs);
    SameMultiset(WalkFields(fs), WalkFields(gs));
    SortedOnce(WalkFields(fs), WalkFields(gs));
  }

  lemma SameMultiset(es: seq<Entry>, gs: seq<Entry>)
    requires DistinctKeys(es) && DistinctKeys(gs)
    requires (forall e | e in es :: e in gs) && (forall e | e in gs :: e in es)
    ensures multiset(es) == multiset(gs)
  {
    DistinctMultiset(es);
    DistinctMultiset(gs);
  }

  lemma WalkedInto(fs: seq<Entry>, gs: seq<Entry>)
    requires DistinctKeys(fs) && DistinctKeys(gs)
    requires FieldMeanings(fs) == FieldMeanings(gs)
    requires forall i, j | 0 <= i < |fs| && 0 <= j < |gs| && MeaningOf(fs[i].val) == MeaningOf(gs[j].val) ::
               Walk(fs[i].val) == Walk(gs[j].val)
    ensures forall e | e in WalkFields(fs) :: e in WalkFields(gs)
  {
    FieldMeaningsAt(fs);
    FieldMeaningsAt(gs);
    forall e | e in WalkFields(fs) ensures e in WalkFields(gs) {
      var i :| 0 <= i < |fs| && WalkFields(fs)[i] == e;
      assert fs[i].key in FieldMeanings(gs);
      var j :| 0 <= j < |gs| && gs[j].key == fs[i].key;
      assert MeaningOf(fs[i].val) == MeaningOf(gs[j].val);
      assert WalkFields(gs)[j] == e;
    }
  }

  lemma WalkTwice(v: Json)
    requires Valid(v)
    ensures Walk(Walk(v)) == Walk(v)
  {
    MeaningOfWalk(v);
    PlainOfWalk(v);
    WalkOfMeaning(Walk(v), v);
  }

  /** Two values have the same canonical text exactly when they mean the same. */
  lemma CanonicalExact(v: Json, w: Json)
    requires Valid(v) && Valid(w)
    ensures Canonical(v) == Canonical(w) <==> MeaningOf(v) == MeaningOf(w)
  {
    CanonicalRoundTrip(v);
    CanonicalRoundTrip(w);
    MeaningOfWalk(v);
    MeaningOfWalk(w);
    if MeaningOf(v) == MeaningOf(w) {
      WalkOfMeaning(v, w);
    }
  }

  // ----- canonical text is well-formed Unicode, so hashing its UTF-8 loses nothing -----

  ghost predicate Clean(t: Text) {
    WellFormed(t) == t
  }

  lemma CleanConcat(a: Text, b: Text)
    requires Clean(a) && Clean(b)
    ensures Clean(a + b)
  {
    if b != [] {
      UnitsOfHead(b);
      assert WellFormed(b)[0] == Units(HeadPoint(b))[0];
    }
    WellFormedConcat(a, b);
  }

  lemma {:induction false} CleanEscape(s: Text)
    ensures Clean(Escape(s))
  {
    if s != [] {
      CleanEscape(s[HeadLength(s)..]);
      if StartsPair(s) {
        assert s[..2][2..] == [] && WellFormed([]) == [];
        UnitsOfHead(s[..2]);
        assert Clean(s[..2]);
        CleanConcat(s[..2], Escape(s[2..]));
      } else {
        WellFormedOfPlain(EscapeUnitLow(s[0]));
        if EscapeUnitLow(s[0]) != EscapeUnit(s[0]) {
          assert [s[0]][1..] == [] && WellFormed([s[0]]) == Units(s[0]) + [];
        }
        CleanConcat(EscapeUnit(s[0]), Escape(s[1..]));
      }
    }
  }

  /** The escape of a unit if it is ASCII, and nothing otherwise. */
  function EscapeUnitLow(u: Unit): (t: Text)
    ensures forall i | 0 <= i < |t| :: t[i] < 128
  {
    if u < 128 || IsHigh(u) || IsLow(u) then EscapeUnit(u) else []
  }

  lemma CleanQuote(s: Text)
    ensures Clean(Quote(s))
  {
    CleanEscape(s);
    WellFormedOfPlain([34]);
    CleanConcat([34], Escape(s));
    CleanConcat([34] + Escape(s), [34]);
  }

  predicate IsAscii(t: Text) {
    forall i | 0 <= i < |t| :: t[i] < 128
  }

  lemma AsciiConcat(a: Text, b: Text)
    requires IsAscii(a) && IsAscii(b)
    ensures IsAscii(a + b)
  {
  }

  lemma CleanNumber(n: Number)
    ensures Clean(NumText(n))
  {
    var l := Layout(n);
    var d, f, e := DigitText(l.0), FractionText(l.1), ExponentText(l.2);
    AsciiConcat([46], DigitText(l.1));
    AsciiConcat([101, if l.2 > 0 then 43 else 45], Dec(if l.2 > 0 then l.2 else -l.2));
    AsciiConcat(f, e);
    AsciiConcat(d, f + e);
    AsciiConcat(if n.neg then [45] else [], d + (f + e));
    WellFormedOfPlain(NumText(n));
  }

  lemma CleanKeyword(v: Json)
    requires v.Undefined? || v.Null? || v.Bool?
    ensures Clean(Stringify(v))
  {
    WellFormedOfPlain(Stringify(v));
  }

  lemma {:induction false} CleanStringify(v: Json)
    ensures Clean(Stringify(v))
    decreases v, 1
  {
    match v {
      case Str(s) => CleanQuote(s);
      case Arr(items) =>
        CleanItems(items, true);
        WellFormedOfPlain([91]);
        CleanConcat([91], ItemsText(items, true));
      case Obj(fs) =>
        CleanFields(fs, true);
        WellFormedOfPlain([123]);
        CleanConcat([123], FieldsText(fs, true));
      case Num(n) => CleanNumber(n);
      case _ => CleanKeyword(v);
    }
  }

  lemma {:induction false} CleanItems(items: seq<Json>, first: bool)
    ensures Clean(ItemsText(items, first))
    decreases items, 0
  {
    if items == [] {
      WellFormedOfPlain([93]);
    } else {
      CleanStringify(items[0]);
      CleanItems(items[1..], false);
      WellFormedOfPlain(Separator(first));
      CleanConcat(Stringify(items[0]), ItemsText(items[1..], false));
      CleanConcat(Separator(first), Stringify(items[0]) + ItemsText(items[1..], false));
    }
  }

  lemma {:induction false} CleanFields(fs: seq<Entry>, first: bool)
    ensures Clean(FieldsText(fs, first))
    decreases fs, 0
  {
    if fs == [] {
      WellFormedOfPlain([125]);
    } else if fs[0].val.Undefined? {
      CleanFields(fs[1..], first);
    } else {
      var q, v, w := Quote(fs[0].key), Stringify(fs[0].val), FieldsText(fs[1..], false);
      CleanQuote(fs[0].key);
      CleanStringify(fs[0].val);
      CleanFields(fs[1..], false);
      WellFormedOfPlain(Separator(first));
      WellFormedOfPlain([58]);
      CleanConcat(v, w);
      CleanConcat([58], v + w);
      CleanConcat(q, [58] + (v + w));
      CleanConcat(Separator(first), q + ([58] + (v + w)));
    }
  }

  /** The bytes that are hashed determine the value, and conversely. */
  lemma HashInputExact(v: Json, w: Json)
    requires Valid(v) && Valid(w)
    ensures Utf8(Canonical(v)) == Utf8(Canonical(w)) <==> MeaningOf(v) == MeaningOf(w)
  {
    CleanStringify(Walk(v));
    CleanStringify(Walk(w));
    Utf8Exact(Canonical(v), Canonical(w));
    CanonicalExact(v, w);
  }
}
