/** Pinning an adapter's files: sorted by path, each file framed with its lengths, and hashed. */
module Artifact {
  import opened Texts
  import opened Ordering

  datatype ArtifactFile = ArtifactFile(path: Text, content: Text)

  datatype ArtifactReason = Mismatch | MissingFile | Empty

  datatype HashResult = Hashed(hash: Text) | HashFailed(reason: ArtifactReason)

  datatype PinnedAdapter = PinnedAdapter(adapterId: Text, version: Text, artifactHash: Text)

  datatype ArtifactVerdict = Installed | NotInstalled(reason: ArtifactReason)

  /** `localeCompare(a, b) <= 0`; collation may tie different texts. */
  type Collation = (Text, Text) -> bool

  function ByPath(leq: Collation): (ArtifactFile, ArtifactFile) -> bool {
    (a: ArtifactFile, b: ArtifactFile) => leq(a.path, b.path)
  }

  const NEWLINE: Unit := 10
  const COLON: Unit := 58

  /** The text fed first; it counts UTF-16 units of the path, but UTF-8 bytes of the content. */
  function Header(f: ArtifactFile): Text {
    Dec(|f.path|) + ([COLON] + (f.path + ([NEWLINE] + (Dec(|Utf8(f.content)|) + [COLON]))))
  }

  function Frame(f: ArtifactFile): Bytes {
    Utf8(Header(f)) + Utf8(f.content) + Utf8([NEWLINE])
  }

  function Frames(fs: seq<ArtifactFile>): Bytes {
    if fs == [] then [] else Frame(fs[0]) + Frames(fs[1..])
  }

  function Encode(leq: Collation, fs: seq<ArtifactFile>): Bytes {
    Frames(StableSort(ByPath(leq), fs))
  }

  function HashOf(leq: Collation, sha: Bytes -> Text, fs: seq<ArtifactFile>): HashResult {
    if fs == [] then HashFailed(Empty) else Hashed(Ascii("sha256:") + sha(Encode(leq, fs)))
  }

  method ArtifactHash(leq: Collation, sha: Bytes -> Text, files: seq<ArtifactFile>) returns (r: HashResult)
    ensures r == HashOf(leq, sha, files)
  {
    if |files| == 0 { return HashFailed(Empty); }
    var sorted := StableSort(ByPath(leq), files);
    var fed: Bytes := [];
    for i := 0 to |sorted|
      invariant fed + Frames(sorted[i..]) == Frames(sorted)
    {
      var f := sorted[i];
      assert sorted[i..][1..] == sorted[i + 1..];
      Assoc(fed, Frame(f), Frames(sorted[i + 1..]));
      Assoc(fed, Utf8(Header(f)), Utf8(f.content));
      Assoc(fed, Utf8(Header(f)) + Utf8(f.content), Utf8([NEWLINE]));
      fed := fed + Utf8(Header(f));
      fed := fed + Utf8(f.content);
      fed := fed + Utf8([NEWLINE]);
    }
    assert fed + [] == fed;
    return Hashed(Ascii("sha256:") + sha(fed));
  }

  function VerifyArtifact(leq: Collation, sha: Bytes -> Text, pinned: PinnedAdapter, installed: seq<ArtifactFile>)
    : ArtifactVerdict
  {
    match HashOf(leq, sha, installed)
    case HashFailed(_) => NotInstalled(Empty)
    case Hashed(actual) => if actual != pinned.artifactHash then NotInstalled(Mismatch) else Installed
  }

  // ----- reading the bytes back -----

  /** What is left of a file once it is bytes: lone surrogates become U+FFFD. */
  function Clean(f: ArtifactFile): ArtifactFile {
    ArtifactFile(WellFormed(f.path), WellFormed(f.content))
  }

  predicate IsClean(f: ArtifactFile) {
    Clean(f) == f
  }

  function CleanAll(fs: seq<ArtifactFile>): seq<ArtifactFile> {
    Map(Clean, fs)
  }

  function ReadNat(b: Bytes): (r: Option<(nat, Bytes)>)
    ensures r.Some? ==> |r.value.1| <= |b|
  {
    var k := DigitCount(b);
    if k == 0 || DecValue(b[..k]) < 0 then None else Some((DecValue(b[..k]), b[k..]))
  }

  function ReadMark(b: Bytes, mark: Unit): (r: Option<Bytes>)
    ensures r.Some? ==> |r.value| < |b|
  {
    if b != [] && b[0] == mark then Some(b[1..]) else None
  }

  function ReadContent(b: Bytes, n: nat): Option<(Text, Bytes)> {
    if n > |b| then None else
      match ReadMark(b[n..], NEWLINE)
      case None => None
      case Some(rest) => Some((Decode(b[..n]), rest))
  }

  function ReadHeader(b: Bytes): Option<(Text, nat, Bytes)> {
    match ReadNat(b)
    case None => None
    case Some(n) =>
      match ReadMark(n.1, COLON)
      case None => None
      case Some(b1) =>
        match TakeUnits(b1, n.0)
        case None => None
        case Some(p) =>
          match ReadMark(p.1, NEWLINE)
          case None => None
          case Some(b2) =>
            match ReadNat(b2)
            case None => None
            case Some(m) =>
              match ReadMark(m.1, COLON)
              case None => None
              case Some(b3) => Some((p.0, m.0, b3))
  }

  function ReadFile(b: Bytes): Option<(ArtifactFile, Bytes)> {
    match ReadHeader(b)
    case None => None
    case Some(h) =>
      match ReadContent(h.2, h.1)
      case None => None
      case Some(c) => Some((ArtifactFile(h.0, c.0), c.1))
  }

  function ReadFiles(b: Bytes): Option<seq<ArtifactFile>>
    decreases |b|
  {
    if b == [] then Some([]) else
      match ReadFile(b)
      case None => None
      case Some(f) =>
        if |f.1| >= |b| then None else
          match ReadFiles(f.1)
          case None => None
          case Some(fs) => Some([f.0] + fs)
  }

  lemma {:induction false} ReadDec(n: nat, mark: Byte, rest: Bytes)
    requires !IsDigit(mark)
    ensures ReadNat(Dec(n) + ([mark] + rest)) == Some((n, [mark] + rest))
  {
    DecIsBytes(n);
    DigitCountAppend(Dec(n), [mark] + rest);
    DecValueOfDec(n);
    var b: Bytes := Dec(n) + ([mark] + rest);
    assert b[..|Dec(n)|] == Dec(n) && b[|Dec(n)|..] == [mark] + rest;
  }

  lemma DecIsBytes(n: nat)
    ensures forall i | 0 <= i < |Dec(n)| :: Dec(n)[i] < 128
  {
    assert AllDigits(Dec(n));
  }

  lemma Utf8Cons(u: Unit, t: Text)
    requires u < 128
    ensures Utf8([u] + t) == [u] + Utf8(t)
  {
    assert ([u] + t)[1..] == t;
  }

  lemma Utf8AfterDec(n: nat, t: Text)
    requires t == [] || !IsLow(t[0])
    ensures Utf8(Dec(n) + t) == Dec(n) + Utf8(t)
  {
    DecIsBytes(n);
    Utf8OfAscii(Dec(n));
    Utf8Concat(Dec(n), t);
  }

  /** The header as bytes. */
  lemma HeaderBytes(f: ArtifactFile)
    ensures Utf8(Header(f)) ==
            Dec(|f.path|) + ([COLON] + (Utf8(f.path) + ([NEWLINE] + (Dec(|Utf8(f.content)|) + [COLON]))))
  {
    var m := |Utf8(f.content)|;
    var t1 := Dec(m) + [COLON];
    var t2 := [NEWLINE] + t1;
    var t3 := f.path + t2;
    Utf8AfterDec(|f.path|, [COLON] + t3);
    Utf8Cons(COLON, t3);
    Utf8Concat(f.path, t2);
    Utf8Cons(NEWLINE, t1);
    Utf8AfterDec(m, [COLON]);
    Utf8OfAscii([COLON]);
  }

  lemma ReadHeaderOf(f: ArtifactFile, rest: Bytes)
    ensures ReadHeader(Utf8(Header(f)) + rest) == Some((WellFormed(f.path), |Utf8(f.content)|, rest))
  {
    var n, m := Dec(|f.path|), Dec(|Utf8(f.content)|);
    DecIsBytes(|Utf8(f.content)|);
    DecIsBytes(|f.path|);
    HeaderBytes(f);
    HeaderAssoc(n, Utf8(f.path), m, rest);
    ReadHeaderParts(f.path, |Utf8(f.content)|, rest);
  }

  lemma ReadHeaderParts(path: Text, size: nat, rest: Bytes)
    ensures forall i | 0 <= i < |Dec(size)| :: Dec(size)[i] < 128
    ensures forall i | 0 <= i < |Dec(|path|)| :: Dec(|path|)[i] < 128
    ensures ReadHeader(Dec(|path|) + ([COLON] + (Utf8(path) + ([NEWLINE] + (Dec(size) + ([COLON] + rest))))))
         == Some((WellFormed(path), size, rest))
  {
    DecIsBytes(size);
    DecIsBytes(|path|);
    var b2: Bytes := [NEWLINE] + (Dec(size) + ([COLON] + rest));
    ReadDec(|path|, COLON, Utf8(path) + b2);
    TakeUnitsOfUtf8(path, b2);
    ReadDec(size, COLON, rest);
  }

  lemma HeaderAssoc(n: Bytes, p: Bytes, m: Bytes, rest: Bytes)
    ensures (n + ([COLON] + (p + ([NEWLINE] + (m + [COLON]))))) + rest
         == n + ([COLON] + (p + ([NEWLINE] + (m + ([COLON] + rest)))))
  {
    var t1 := m + [COLON];
    var t2 := [NEWLINE] + t1;
    var t3 := p + t2;
    Assoc(m, [COLON], rest);
    Assoc([NEWLINE], t1, rest);
    Assoc(p, t2, rest);
    Assoc([COLON], t3, rest);
    Assoc(n, [COLON] + t3, rest);
  }

  lemma ReadContentOf(content: Text, rest: Bytes)
    ensures ReadContent(Utf8(content) + ([NEWLINE] + rest), |Utf8(content)|) == Some((WellFormed(content), rest))
  {
    var u := Utf8(content);
    var b: Bytes := u + ([NEWLINE] + rest);
    assert b[..|u|] == u && b[|u|..] == [NEWLINE] + rest;
    DecodeOfUtf8(content);
  }

  lemma ReadFrame(f: ArtifactFile, rest: Bytes)
    ensures ReadFile(Frame(f) + rest) == Some((Clean(f), rest))
    ensures |rest| < |Frame(f) + rest|
  {
    var c: Bytes := [NEWLINE] + rest;
    Utf8OfAscii([NEWLINE]);
    assert Frame(f) + rest == Utf8(Header(f)) + (Utf8(f.content) + c);
    ReadHeaderOf(f, Utf8(f.content) + c);
    ReadContentOf(f.content, rest);
  }

  ghost predicate ReadsAs(b: Bytes, fs: seq<ArtifactFile>) {
    ReadFiles(b) == Some(fs)
  }

  lemma ReadOneMore(f: ArtifactFile, rest: Bytes, fs: seq<ArtifactFile>)
    requires ReadsAs(rest, fs)
    ensures ReadsAs(Frame(f) + rest, [Clean(f)] + fs)
  {
    ReadFrame(f, rest);
    var b := Frame(f) + rest;
    assert b != [] && ReadFile(b) == Some((Clean(f), rest));
  }

  lemma CleanCons(fs: seq<ArtifactFile>)
    requires fs != []
    ensures CleanAll(fs) == [Clean(fs[0])] + CleanAll(fs[1..])
  {
  }

  /** Unique decodability: the bytes give back every file, in order, up to lone surrogates. */
  lemma {:induction false} ReadFrames(fs: seq<ArtifactFile>)
    ensures ReadsAs(Frames(fs), CleanAll(fs))
  {
    if fs != [] {
      ReadFrames(fs[1..]);
      ReadOneMore(fs[0], Frames(fs[1..]), CleanAll(fs[1..]));
      CleanCons(fs);
    }
  }

  lemma FrameOfClean(f: ArtifactFile)
    ensures Frame(Clean(f)) == Frame(f)
  {
    WellFormedLength(f.path);
    Utf8OfWellFormed(f.path);
    Utf8OfWellFormed(f.content);
    HeaderBytes(f);
    HeaderBytes(Clean(f));
  }

  lemma {:induction false} FramesOfClean(fs: seq<ArtifactFile>)
    ensures Frames(CleanAll(fs)) == Frames(fs)
  {
    if fs != [] {
      FrameOfClean(fs[0]);
      FramesOfClean(fs[1..]);
      assert CleanAll(fs)[1..] == CleanAll(fs[1..]);
    }
  }

  /** Two file sequences feed the same bytes exactly when they agree up to lone surrogates. */
  lemma FramesExact(fs: seq<ArtifactFile>, gs: seq<ArtifactFile>)
    ensures Frames(fs) == Frames(gs) <==> CleanAll(fs) == CleanAll(gs)
  {
    ReadFrames(fs);
    ReadFrames(gs);
    FramesOfClean(fs);
    FramesOfClean(gs);
  }

  // ----- order -----

  ghost predicate Collates(leq: Collation) {
    TotalPreorder(leq)
  }

  lemma ByPathOrders(leq: Collation)
    requires Collates(leq)
    ensures TotalPreorder(ByPath(leq))
  {
    forall a, b ensures Comparable(ByPath(leq), a, b) {
      assert Comparable(leq, a.path, b.path);
    }
    forall a, b, c ensures Chains(ByPath(leq), a, b, c) {
      assert Chains(leq, a.path, b.path, c.path);
    }
  }

  /** Two arrangements of the same files encode alike exactly when, among files whose paths tie,
      both have the same contents in the same order. */
  lemma PermutationExact(leq: Collation, fs: seq<ArtifactFile>, gs: seq<ArtifactFile>)
    requires Collates(leq) && multiset(fs) == multiset(gs)
    ensures Encode(leq, fs) == Encode(leq, gs) <==> SameClasses(ByPath(leq), Clean, fs, gs)
  {
    ByPathOrders(leq);
    SortExact(ByPath(leq), Clean, fs, gs);
    FramesExact(StableSort(ByPath(leq), fs), StableSort(ByPath(leq), gs));
  }

  /** Files whose paths tie are the same bytes. */
  predicate TiesAreEqual(leq: Collation, fs: seq<ArtifactFile>) {
    forall a, b | a in fs && b in fs && Tied(ByPath(leq), a, b) :: Clean(a) == Clean(b)
  }

  ghost predicate OrderFree(leq: Collation, fs: seq<ArtifactFile>) {
    forall gs :: SameBytes(leq, gs, fs)
  }

  ghost predicate SameBytes(leq: Collation, gs: seq<ArtifactFile>, fs: seq<ArtifactFile>) {
    multiset(gs) == multiset(fs) ==> Encode(leq, gs) == Encode(leq, fs)
  }

  lemma InMultiset<T>(x: T, xs: seq<T>, ys: seq<T>)
    requires multiset(xs) == multiset(ys) && x in xs
    ensures x in ys
  {
    assert x in multiset(ys);
  }

  lemma OrderFreeIfTiesEqual(leq: Collation, fs: seq<ArtifactFile>, gs: seq<ArtifactFile>)
    requires Collates(leq) && TiesAreEqual(leq, fs) && multiset(fs) == multiset(gs)
    ensures Encode(leq, fs) == Encode(leq, gs)
  {
    ByPathOrders(leq);
    var o := ByPath(leq);
    var p, q := StableSort(o, fs), StableSort(o, gs);
    SortMultiset(o, fs);
    SortMultiset(o, gs);
    SortSorted(o, fs);
    SortSorted(o, gs);
    SortedPointwise(o, p, q);
    forall i | 0 <= i < |p| ensures Clean(p[i]) == Clean(q[i]) {
      InMultiset(p[i], p, fs);
      InMultiset(q[i], q, fs);
      assert Tied(o, p[i], q[i]);
    }
    FramesExact(p, q);
  }

  lemma OneInFront<T>(xs: seq<T>, i: nat)
    requires i < |xs|
    ensures multiset([xs[i]] + Without(xs, i)) == multiset(xs)
  {
    assert xs == xs[..i] + ([xs[i]] + xs[i + 1..]);
  }

  lemma SwapFront<T>(a: T, b: T, rest: seq<T>)
    ensures multiset([a, b] + rest) == multiset([b, a] + rest) == multiset{a} + multiset([b] + rest)
  {
    assert [a, b] + rest == [a] + ([b] + rest);
  }

  /** Bringing two members to the front. */
  lemma TwoInFront<T>(xs: seq<T>, i: nat, j: nat) returns (rest: seq<T>)
    requires i < |xs| && j < |xs| && i != j
    ensures multiset([xs[i], xs[j]] + rest) == multiset(xs) == multiset([xs[j], xs[i]] + rest)
  {
    var ys := Without(xs, i);
    var k := if j < i then j else j - 1;
    assert ys[k] == xs[j];
    rest := Without(ys, k);
    OneInFront(xs, i);
    OneInFront(ys, k);
    SwapFront(xs[i], xs[j], rest);
  }

  lemma FrontOfClass(leq: Collation, a: ArtifactFile, b: ArtifactFile, rest: seq<ArtifactFile>)
    requires Collates(leq) && Tied(ByPath(leq), a, b)
    ensures var cs := Class(ByPath(leq), Clean, a, [a, b] + rest); |cs| > 0 && cs[0] == Clean(a)
    ensures var cs := Class(ByPath(leq), Clean, a, [b, a] + rest); |cs| > 0 && cs[0] == Clean(b)
  {
    ByPathOrders(leq);
    assert Comparable(ByPath(leq), a, a);
    ClassCons(ByPath(leq), Clean, a, [a, b] + rest);
    ClassCons(ByPath(leq), Clean, a, [b, a] + rest);
  }

  lemma SwappedAlike(leq: Collation, a: ArtifactFile, b: ArtifactFile, rest: seq<ArtifactFile>)
    requires Collates(leq) && Tied(ByPath(leq), a, b)
    requires Encode(leq, [a, b] + rest) == Encode(leq, [b, a] + rest)
    ensures Clean(a) == Clean(b)
  {
    var gs, hs := [a, b] + rest, [b, a] + rest;
    SwapFront(a, b, rest);
    PermutationExact(leq, gs, hs);
    FrontOfClass(leq, a, b, rest);
    assert Class(ByPath(leq), Clean, a, gs) == Class(ByPath(leq), Clean, a, hs);
  }

  lemma TiesEqualIfOrderFree(leq: Collation, fs: seq<ArtifactFile>, a: ArtifactFile, b: ArtifactFile)
    requires Collates(leq) && OrderFree(leq, fs)
    requires a in fs && b in fs && a != b && Tied(ByPath(leq), a, b)
    ensures Clean(a) == Clean(b)
  {
    var i :| 0 <= i < |fs| && fs[i] == a;
    var j :| 0 <= j < |fs| && fs[j] == b;
    var rest := TwoInFront(fs, i, j);
    assert SameBytes(leq, [a, b] + rest, fs) && SameBytes(leq, [b, a] + rest, fs);
    SwappedAlike(leq, a, b, rest);
  }

  /** The bytes do not depend on the order of the files exactly when no two files whose paths tie
      under `localeCompare` differ. Distinct paths are not enough: distinct paths may tie. */
  lemma OrderFreeExact(leq: Collation, fs: seq<ArtifactFile>)
    requires Collates(leq)
    ensures OrderFree(leq, fs) <==> TiesAreEqual(leq, fs)
  {
    if TiesAreEqual(leq, fs) {
      forall gs ensures SameBytes(leq, gs, fs) {
        if multiset(gs) == multiset(fs) { OrderFreeIfTiesEqual(leq, fs, gs); }
      }
    } else if OrderFree(leq, fs) {
      var a, b :| a in fs && b in fs && Tied(ByPath(leq), a, b) && Clean(a) != Clean(b);
      TiesEqualIfOrderFree(leq, fs, a, b);
    }
  }

  // ----- the kit's reverse check -----

  /** No two files are encoded alike. Distinct paths of well-formed text are enough. */
  predicate Distinct(fs: seq<ArtifactFile>) {
    forall i, j | 0 <= i < j < |fs| :: Clean(fs[i]) != Clean(fs[j])
  }

  predicate NoTwoTie(leq: Collation, fs: seq<ArtifactFile>) {
    forall i, j | 0 <= i < j < |fs| :: !Tied(ByPath(leq), fs[i], fs[j])
  }

  lemma {:induction false} FilterKeepsDistinct(p: ArtifactFile -> bool, fs: seq<ArtifactFile>)
    requires Distinct(fs)
    ensures Distinct(Filter(p, fs))
  {
    if fs != [] {
      var rest := Filter(p, fs[1..]);
      FilterKeepsDistinct(p, fs[1..]);
      if p(fs[0]) {
        forall i | 0 <= i < |rest| ensures Clean(rest[i]) != Clean(fs[0]) {
          FilterMember(p, fs[1..], rest[i]);
          var k :| 0 <= k < |fs[1..]| && fs[1..][k] == rest[i];
          assert fs[k + 1] == rest[i];
        }
        assert Filter(p, fs) == [fs[0]] + rest;
      } else {
        assert Filter(p, fs) == [] + rest == rest;
      }
    }
  }

  lemma ClassOfReverse(leq: Collation, x: ArtifactFile, fs: seq<ArtifactFile>)
    ensures Class(ByPath(leq), Clean, x, Reverse(fs)) == Reverse(Class(ByPath(leq), Clean, x, fs))
  {
    FilterReverse(TiesWith(ByPath(leq), x), fs);
    MapReverse(Clean, Filter(TiesWith(ByPath(leq), x), fs));
  }

  /** The kit hashes the files again in reverse order. It reports nothing exactly when every list of
      files with tying paths reads the same both ways. */
  lemma ReverseCheckExact(leq: Collation, fs: seq<ArtifactFile>)
    requires Collates(leq)
    ensures Encode(leq, Reverse(fs)) == Encode(leq, fs) <==>
            forall x :: Reverse(Class(ByPath(leq), Clean, x, fs)) == Class(ByPath(leq), Clean, x, fs)
  {
    ReverseMultiset(fs);
    PermutationExact(leq, Reverse(fs), fs);
    forall x ensures Class(ByPath(leq), Clean, x, Reverse(fs)) == Reverse(Class(ByPath(leq), Clean, x, fs)) {
      ClassOfReverse(leq, x, fs);
    }
  }

  lemma TwoTiedAreSeen(leq: Collation, fs: seq<ArtifactFile>, i: nat, j: nat)
    requires Collates(leq) && Distinct(fs)
    requires i < j < |fs| && Tied(ByPath(leq), fs[i], fs[j])
    ensures var cs := Class(ByPath(leq), Clean, fs[i], fs); Reverse(cs) != cs
  {
    var c := TiesWith(ByPath(leq), fs[i]);
    var gs := Filter(c, fs);
    ByPathOrders(leq);
    assert Comparable(ByPath(leq), fs[i], fs[i]);
    FilterMember(c, fs, fs[i]);
    FilterMember(c, fs, fs[j]);
    assert Clean(fs[i]) != Clean(fs[j]);
    var a :| 0 <= a < |gs| && gs[a] == fs[i];
    var b :| 0 <= b < |gs| && gs[b] == fs[j];
    FilterKeepsDistinct(c, fs);
    var cs := Class(ByPath(leq), Clean, fs[i], fs);
    ReverseEnds(cs);
    assert Clean(gs[0]) != Clean(gs[|gs| - 1]);
  }

  /** Two files that tie and are encoded differently: their two arrangements differ in bytes, so the kit reports
      them. */
  lemma TiedPairDiffers(leq: Collation, a: ArtifactFile, b: ArtifactFile)
    requires Collates(leq) && Tied(ByPath(leq), a, b) && Clean(a) != Clean(b)
    ensures Reverse([a, b]) == [b, a] && Encode(leq, [b, a]) != Encode(leq, [a, b])
  {
    assert [a, b][1..] == [b] && Reverse([b]) == [] + [b];
    TwoTiedAreSeen(leq, [a, b], 0, 1);
    ReverseCheckExact(leq, [a, b]);
  }

  /** Where no two files are encoded alike the check passes exactly when no two paths tie. */
  lemma ReverseCheckOfDistinct(leq: Collation, fs: seq<ArtifactFile>)
    requires Collates(leq) && Distinct(fs)
    ensures Encode(leq, Reverse(fs)) == Encode(leq, fs) <==> NoTwoTie(leq, fs)
  {
    if NoTwoTie(leq, fs) {
      ByPathOrders(leq);
      assert TiesAreEqual(leq, fs) by {
        forall a, b | a in fs && b in fs && Tied(ByPath(leq), a, b) ensures a == b {
          var i :| 0 <= i < |fs| && fs[i] == a;
          var j :| 0 <= j < |fs| && fs[j] == b;
          assert Tied(ByPath(leq), fs[i], fs[j]) && Tied(ByPath(leq), fs[j], fs[i]);
        }
      }
      ReverseMultiset(fs);
      OrderFreeIfTiesEqual(leq, fs, Reverse(fs));
    } else {
      var i, j :| 0 <= i < j < |fs| && Tied(ByPath(leq), fs[i], fs[j]);
      TwoTiedAreSeen(leq, fs, i, j);
      ReverseCheckExact(leq, fs);
    }
  }

  // ----- what a pin fixes -----

  ghost predicate Injective(sha: Bytes -> Text) {
    forall a, b :: sha(a) == sha(b) ==> a == b
  }

  predicate AllClean(fs: seq<ArtifactFile>) {
    forall f | f in fs :: IsClean(f)
  }

  /** A pin made from `fs`, as a Blueprint stores it. */
  function Pin(leq: Collation, sha: Bytes -> Text, id: Text, version: Text, fs: seq<ArtifactFile>): PinnedAdapter
    requires fs != []
  {
    PinnedAdapter(id, version, HashOf(leq, sha, fs).hash)
  }

  lemma VerifiesIffSameBytes(leq: Collation, sha: Bytes -> Text, id: Text, version: Text,
                             fs: seq<ArtifactFile>, gs: seq<ArtifactFile>)
    requires Injective(sha) && fs != []
    ensures VerifyArtifact(leq, sha, Pin(leq, sha, id, version, fs), gs).Installed? <==>
            gs != [] && Encode(leq, fs) == Encode(leq, gs)
  {
    if gs != [] {
      var a, b := sha(Encode(leq, fs)), sha(Encode(leq, gs));
      var p := Ascii("sha256:");
      assert (p + a)[|p|..] == a && (p + b)[|p|..] == b;
    }
  }

  lemma SortsOfClean(leq: Collation, fs: seq<ArtifactFile>)
    requires AllClean(fs)
    ensures CleanAll(StableSort(ByPath(leq), fs)) == StableSort(ByPath(leq), fs)
  {
    var p := StableSort(ByPath(leq), fs);
    SortMultiset(ByPath(leq), fs);
    forall i | 0 <= i < |p| ensures Clean(p[i]) == p[i] {
      InMultiset(p[i], p, fs);
    }
  }

  /** Well-formed files: the installed files verify exactly when they are the pinned ones, in any
      order that keeps files with tying paths in theirs. */
  lemma PinExact(leq: Collation, sha: Bytes -> Text, id: Text, version: Text,
                 fs: seq<ArtifactFile>, gs: seq<ArtifactFile>)
    requires Collates(leq) && Injective(sha) && fs != [] && AllClean(fs) && AllClean(gs)
    ensures VerifyArtifact(leq, sha, Pin(leq, sha, id, version, fs), gs).Installed? <==>
            multiset(fs) == multiset(gs) && SameClasses(ByPath(leq), Clean, fs, gs)
  {
    VerifiesIffSameBytes(leq, sha, id, version, fs, gs);
    if Encode(leq, fs) == Encode(leq, gs) {
      FramesExact(StableSort(ByPath(leq), fs), StableSort(ByPath(leq), gs));
      SortsOfClean(leq, fs);
      SortsOfClean(leq, gs);
      SortMultiset(ByPath(leq), fs);
      SortMultiset(ByPath(leq), gs);
    }
    if multiset(fs) == multiset(gs) {
      PermutationExact(leq, fs, gs);
      InMultiset(fs[0], fs, gs);
    }
  }

  /** When no two different pinned files tie, that is: up to order. */
  lemma PinFixesFiles(leq: Collation, sha: Bytes -> Text, id: Text, version: Text,
                      fs: seq<ArtifactFile>, gs: seq<ArtifactFile>)
    requires Collates(leq) && Injective(sha) && fs != [] && AllClean(fs) && AllClean(gs)
    requires forall a, b | a in fs && b in fs && Tied(ByPath(leq), a, b) :: a == b
    ensures VerifyArtifact(leq, sha, Pin(leq, sha, id, version, fs), gs).Installed? <==> multiset(fs) == multiset(gs)
  {
    PinExact(leq, sha, id, version, fs, gs);
    if multiset(fs) == multiset(gs) {
      OrderFreeIfTiesEqual(leq, fs, gs);
      PermutationExact(leq, fs, gs);
    }
  }
}
