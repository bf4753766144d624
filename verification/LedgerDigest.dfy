/** The digest a Ledger is shown, taken over plain `JSON.stringify`: which payloads share it. */
module LedgerDigest {
  import opened Texts
  import opened CanonicalJson
  import opened CanonicalMeaning
  import opened SignedRequest
  import opened BridgePolicy

  /** What `JSON.stringify` writes of a value: properties that are undefined are dropped, and undefined
      elsewhere is null. The order of properties stays. */
  function Trim(v: Json): Json {
    match v
    case Undefined => Null
    case Arr(items) => Arr(TrimItems(items))
    case Obj(fs) => Obj(TrimFields(fs))
    case _ => v
  }

  function TrimItems(items: seq<Json>): seq<Json> {
    if items == [] then [] else [Trim(items[0])] + TrimItems(items[1..])
  }

  function TrimFields(fs: seq<Entry>): seq<Entry> {
    if fs == [] then []
    else (if fs[0].val.Undefined? then [] else [Entry(fs[0].key, Trim(fs[0].val))]) + TrimFields(fs[1..])
  }

  lemma {:induction false} StringifyOfTrim(v: Json)
    ensures Stringify(Trim(v)) == Stringify(v)
    decreases v, 1
  {
    match v {
      case Arr(items) => ItemsOfTrim(items, true);
      case Obj(fs) => FieldsOfTrim(fs, true);
      case _ =>
    }
  }

  lemma {:induction false} ItemsOfTrim(items: seq<Json>, first: bool)
    ensures ItemsText(TrimItems(items), first) == ItemsText(items, first)
    decreases items, 0
  {
    if items != [] {
      StringifyOfTrim(items[0]);
      ItemsOfTrim(items[1..], false);
      assert TrimItems(items)[1..] == TrimItems(items[1..]);
    }
  }

  lemma {:induction false} FieldsOfTrim(fs: seq<Entry>, first: bool)
    ensures FieldsText(TrimFields(fs), first) == FieldsText(fs, first)
    decreases fs, 0
  {
    if fs != [] {
      if fs[0].val.Undefined? {
        FieldsOfTrim(fs[1..], first);
        assert TrimFields(fs) == TrimFields(fs[1..]);
      } else {
        StringifyOfTrim(fs[0].val);
        FieldsOfTrim(fs[1..], false);
        assert TrimFields(fs)[1..] == TrimFields(fs[1..]);
      }
    }
  }

  lemma {:induction false} PlainOfTrim(v: Json)
    requires Valid(v)
    ensures Plain(Trim(v)) && (Plain(v) ==> Trim(v) == v)
    decreases v, 1
  {
    match v {
      case Arr(items) => PlainItems(items);
      case Obj(fs) => PlainFields(fs);
      case _ =>
    }
  }

  lemma {:induction false} PlainItems(items: seq<Json>)
    requires forall i | 0 <= i < |items| :: Valid(items[i])
    ensures forall i | 0 <= i < |TrimItems(items)| :: Plain(TrimItems(items)[i])
    ensures (forall i | 0 <= i < |items| :: Plain(items[i])) ==> TrimItems(items) == items
    decreases items, 0
  {
    if items != [] {
      PlainOfTrim(items[0]);
      PlainItems(items[1..]);
    }
  }

  lemma {:induction false} PlainFields(fs: seq<Entry>)
    requires forall i | 0 <= i < |fs| :: Valid(fs[i].val)
    ensures forall i | 0 <= i < |TrimFields(fs)| :: Plain(TrimFields(fs)[i].val)
    ensures (forall i | 0 <= i < |fs| :: Plain(fs[i].val)) ==> TrimFields(fs) == fs
    decreases fs, 0
  {
    if fs != [] {
      PlainOfTrim(fs[0].val);
      PlainFields(fs[1..]);
    }
  }

  /** The text under the digest, and its bytes, agree exactly when the values agree once undefined is trimmed
      away: property order included. */
  lemma DigestInputExact(x: Json, y: Json)
    requires Valid(x) && Valid(y)
    ensures Stringify(x) == Stringify(y) <==> Trim(x) == Trim(y)
    ensures Utf8(Stringify(x)) == Utf8(Stringify(y)) <==> Trim(x) == Trim(y)
  {
    StringifyOfTrim(x);
    StringifyOfTrim(y);
    PlainOfTrim(x);
    PlainOfTrim(y);
    ReadBack(Trim(x), []);
    ReadBack(Trim(y), []);
    assert Stringify(x) + [] == Stringify(x) && Stringify(y) + [] == Stringify(y);
    CleanStringify(x);
    CleanStringify(y);
    Utf8Exact(Stringify(x), Stringify(y));
  }

  /** So of values without undefined, as a JSON parser returns them, only identical ones share it. */
  lemma DigestInputOfPlain(x: Json, y: Json)
    requires Valid(x) && Valid(y) && Plain(x) && Plain(y)
    ensures Stringify(x) == Stringify(y) <==> x == y
  {
    DigestInputExact(x, y);
    PlainOfTrim(x);
    PlainOfTrim(y);
  }

  predicate IsLedgerOperation(op: Operation) {
    op == ApproveContextLockAction || op == PerformProtectedBrokerAction
  }

  /** The plan carries this digest input to the device. */
  predicate Carries(plan: Plan, digestInput: Text) {
    (plan.Act? && plan.effect.LedgerApprove? && plan.effect.digestInput == digestInput)
    || (plan.Ask? && plan.digestInput == digestInput)
  }

  /** A Ledger plan that goes ahead carries the digest of its payload. */
  lemma LedgerCarries(p: Permissions, deps: Deps, projectId: Text, op: Operation, x: Json)
    requires IsLedgerOperation(op) && GoesAhead(Decide(p, deps, projectId, op, x))
    ensures Carries(Decide(p, deps, projectId, op, x), Stringify(x))
  {
  }

  lemma CarriedExact(a: Plan, b: Plan, x: Text, y: Text)
    requires Erase(a) == Erase(b) && Carries(a, x) && Carries(b, y)
    ensures a == b <==> x == y
  {
  }

  lemma ErasedGoesAhead(a: Plan, b: Plan)
    requires Erase(a) == Erase(b)
    ensures GoesAhead(a) <==> GoesAhead(b)
  {
  }

  /** Two payloads under one signed request that go to the Ledger: the whole decisions agree exactly when the
      payloads agree once undefined is trimmed away. */
  lemma LedgerDecisionExact(c: Crypto, p: Permissions, deps: Deps, projectId: Text, op: Operation, x: Json, y: Json)
    requires ShaInjective(c) && Valid(x) && Valid(y) && PayloadHash(c, x) == PayloadHash(c, y)
    requires IsLedgerOperation(op) && GoesAhead(Decide(p, deps, projectId, op, x))
    ensures Decide(p, deps, projectId, op, x) == Decide(p, deps, projectId, op, y) <==> Trim(x) == Trim(y)
  {
    var a, b := Decide(p, deps, projectId, op, x), Decide(p, deps, projectId, op, y);
    SignedRequestFixesDecision(c, p, deps, projectId, op, x, y);
    ErasedGoesAhead(a, b);
    LedgerCarries(p, deps, projectId, op, x);
    LedgerCarries(p, deps, projectId, op, y);
    CarriedExact(a, b, Stringify(x), Stringify(y));
    DigestInputExact(x, y);
  }

  const ACTION_TYPE := Ascii("actionType")

  lemma SwappedMeaning(a: Entry, b: Entry)
    requires a.key != b.key
    ensures MeaningOf(Obj([a, b])) == MeaningOf(Obj([b, a]))
  {
    SameFieldMeanings([a, b], [a, b], [b, a]);
  }

  lemma ReadsActionType(x: Json, t: Text)
    requires Get(x, ACTION_TYPE) == Str(t)
    ensures Read(x, "actionType", []) == Some(t)
  {
  }

  lemma ApprovesAtOnce(p: Permissions, deps: Deps, projectId: Text, op: Operation, x: Json, t: Text)
    requires op in p.allowedOperations && projectId in p.allowedProjects && t in p.allowedLedgerActionTypes
    requires IsLedgerOperation(op) && deps.ledger
    requires Get(x, ACTION_TYPE) == Str(t) && Get(x, Ascii("amountUsdCents")) == Undefined
    ensures Decide(p, deps, projectId, op, x) == Act(LedgerApprove(t, Stringify(x)))
  {
    ReadsActionType(x, t);
  }

  /** So the signature does not fix what the device approves: under any permissions that allow an action type,
      a payload naming it and the same payload with its two properties swapped have one canonical text, and
      both are approved, under different digests. Neither name is an array index, so an object enumerates them
      in the order in which they were written. */
  lemma LedgerDigestNotFixed(p: Permissions, deps: Deps, projectId: Text, op: Operation, t: Text, b: Entry)
    requires op in p.allowedOperations && projectId in p.allowedProjects && t in p.allowedLedgerActionTypes
    requires IsLedgerOperation(op) && deps.ledger
    requires b.key != ACTION_TYPE && b.key != Ascii("amountUsdCents") && !IsIndex(b)
    requires Valid(b.val) && !b.val.Undefined?
    ensures var x, y := Obj([Entry(ACTION_TYPE, Str(t)), b]), Obj([b, Entry(ACTION_TYPE, Str(t))]);
            && Canonical(x) == Canonical(y) && Stringify(x) != Stringify(y)
            && Decide(p, deps, projectId, op, x) == Act(LedgerApprove(t, Stringify(x)))
            && Decide(p, deps, projectId, op, y) == Act(LedgerApprove(t, Stringify(y)))
  {
    var a := Entry(ACTION_TYPE, Str(t));
    SwappedMeaning(a, b);
    CanonicalExact(Obj([a, b]), Obj([b, a]));
    DigestInputExact(Obj([a, b]), Obj([b, a]));
    assert TrimFields([a, b])[0].key == a.key && TrimFields([b, a])[0].key == b.key;
    assert ACTION_TYPE != Ascii("amountUsdCents");
    LookupTwo(a, b, ACTION_TYPE);
    LookupTwo(b, a, ACTION_TYPE);
    LookupTwo(a, b, Ascii("amountUsdCents"));
    LookupTwo(b, a, Ascii("amountUsdCents"));
    ApprovesAtOnce(p, deps, projectId, op, Obj([a, b]), t);
    ApprovesAtOnce(p, deps, projectId, op, Obj([b, a]), t);
  }

  lemma LookupTwo(a: Entry, b: Entry, key: Text)
    ensures Lookup([a, b], key) == if a.key == key then a.val else if b.key == key then b.val else Undefined
  {
    assert [a, b][1..] == [b] && [b][1..] == [];
    assert Lookup([b], key) == if b.key == key then b.val else Undefined;
  }
}
