/** The agent's bounded memory of processed events, the identity of an event, and its cursor. */
module EventLog {
  import opened Texts
  import opened Ordering

  datatype Entry = Entry(id: Text, at: int)

  datatype Limits = Limits(windowMs: int, maxEntries: int)

  predicate InWindow(limits: Limits, now: int, at: int) {
    now - at <= limits.windowMs
  }

  function StillFresh(limits: Limits, now: int): Entry -> bool {
    (e: Entry) => InWindow(limits, now, e.at)
  }

  function LastOf<T>(xs: seq<T>, n: int): seq<T> {
    if |xs| <= n then xs else if n < 0 then [] else xs[|xs| - n..]
  }

  /** What survives an eviction: entries within the window, and of those the last `maxEntries`. */
  function Evicted(limits: Limits, seen: seq<Entry>, now: int): seq<Entry> {
    LastOf(Filter(StillFresh(limits, now), seen), limits.maxEntries)
  }

  predicate HasId(seen: seq<Entry>, id: Text) {
    exists i :: 0 <= i < |seen| && seen[i].id == id
  }

  function AfterAdmit(limits: Limits, seen: seq<Entry>, id: Text, now: int): seq<Entry> {
    var kept := Evicted(limits, seen, now);
    if HasId(kept, id) then kept else kept + [Entry(id, now)]
  }

  class ProcessedEventLog {
    const limits: Limits
    /** The map's entries in insertion order. */
    var seen: seq<Entry>

    constructor (limits: Limits)
      ensures this.limits == limits && seen == []
    {
      this.limits := limits;
      seen := [];
    }

    /** True when the event was not remembered; it is then recorded. */
    method Admit(id: Text, now: int) returns (admitted: bool)
      modifies this
      ensures admitted <==> !HasId(Evicted(limits, old(seen), now), id)
      ensures seen == AfterAdmit(limits, old(seen), id, now)
    {
      Evict(now);
      if Has(id) { return false; }
      seen := seen + [Entry(id, now)];
      return true;
    }

    predicate Has(id: Text)
      reads this
    {
      HasId(seen, id)
    }

    method Evict(now: int)
      modifies this
      ensures seen == Evicted(limits, old(seen), now)
    {
      DropStale(now);
      DropOldest();
    }

    method DropStale(now: int)
      modifies this
      ensures seen == Filter(StillFresh(limits, now), old(seen))
    {
      ghost var was, done := seen, 0;
      var i := 0;
      while i < |seen|
        invariant 0 <= i <= |seen| && 0 <= done <= |was|
        invariant seen[i..] == was[done..]
        invariant seen[..i] == Filter(StillFresh(limits, now), was[..done])
        decreases |seen| - i
      {
        FilterNext(StillFresh(limits, now), was, done, seen, i);
        if now - seen[i].at > limits.windowMs {
          seen := seen[..i] + seen[i + 1..];
        } else {
          i := i + 1;
        }
        done := done + 1;
      }
      assert was[..done] == was && seen[..i] == seen;
    }

    method DropOldest()
      modifies this
      ensures seen == LastOf(old(seen), limits.maxEntries)
    {
      ghost var young := seen;
      while |seen| > limits.maxEntries
        invariant |seen| <= |young| && seen == young[|young| - |seen|..]
        invariant |seen| == |young| || |seen| >= limits.maxEntries
      {
        if |seen| == 0 { break; }
        seen := seen[1..];
      }
    }
  }

  /** Looking at the next entry of a walk that deletes as it goes. */
  lemma FilterNext<T>(p: T -> bool, was: seq<T>, done: nat, now: seq<T>, i: nat)
    requires i < |now| && done < |was| && now[i..] == was[done..]
    requires now[..i] == Filter(p, was[..done])
    ensures now[i] == was[done] && now[i + 1..] == was[done + 1..]
    ensures Filter(p, was[..done + 1]) == now[..i] + (if p(now[i]) then [now[i]] else [])
    ensures now[..i] + [now[i]] == now[..i + 1]
    ensures (now[..i] + now[i + 1..])[..i] == now[..i] && (now[..i] + now[i + 1..])[i..] == now[i + 1..]
  {
    assert now[i..][0] == now[i] && was[done..][0] == was[done];
    assert now[i..][1..] == now[i + 1..] && was[done..][1..] == was[done + 1..];
    assert was[..done + 1] == was[..done] + [was[done]];
    FilterConcat(p, was[..done], [was[done]]);
    assert Filter(p, [was[done]]) == if p(was[done]) then [was[done]] else [];
  }

  // ----- runs -----

  datatype Call = Call(id: Text, now: int)

  /** The log, and every admission ever made, oldest first. */
  datatype History = History(seen: seq<Entry>, admitted: seq<Entry>, answers: seq<bool>)

  function After(limits: Limits, h: History, c: Call): History {
    var yes := !HasId(Evicted(limits, h.seen, c.now), c.id);
    History(AfterAdmit(limits, h.seen, c.id, c.now),
            if yes then h.admitted + [Entry(c.id, c.now)] else h.admitted,
            h.answers + [yes])
  }

  function Run(limits: Limits, calls: seq<Call>): (h: History)
    ensures |h.answers| == |calls|
  {
    if calls == [] then History([], [], [])
    else After(limits, Run(limits, calls[..|calls| - 1]), calls[|calls| - 1])
  }

  predicate Clock(calls: seq<Call>) {
    forall i, j | 0 <= i <= j < |calls| :: calls[i].now <= calls[j].now
  }

  predicate OrderedAt(es: seq<Entry>, i: int, j: int) {
    0 <= i <= j < |es| ==> es[i].at <= es[j].at
  }

  ghost predicate InTimeOrder(es: seq<Entry>) {
    forall i, j :: OrderedAt(es, i, j)
  }

  lemma OrderedMore(es: seq<Entry>, e: Entry)
    requires InTimeOrder(es) && UpTo(es, e.at)
    ensures InTimeOrder(es + [e]) && UpTo(es + [e], e.at)
  {
    forall i, j ensures OrderedAt(es + [e], i, j) {
      assert OrderedAt(es, i, j);
    }
  }

  lemma OrderedDrop(es: seq<Entry>, k: nat)
    requires InTimeOrder(es) && k <= |es|
    ensures InTimeOrder(es[k..])
  {
    forall i, j ensures OrderedAt(es[k..], i, j) {
      assert OrderedAt(es, k + i, k + j);
    }
  }

  predicate UpTo(es: seq<Entry>, now: int) {
    forall i | 0 <= i < |es| :: es[i].at <= now
  }

  /** How many of the oldest entries have left the window. */
  function Stale(limits: Limits, es: seq<Entry>, now: int): (k: nat)
    ensures k <= |es|
    ensures forall i | 0 <= i < k :: !InWindow(limits, now, es[i].at)
    ensures k < |es| ==> InWindow(limits, now, es[k].at)
  {
    if es == [] || InWindow(limits, now, es[0].at) then 0 else 1 + Stale(limits, es[1..], now)
  }

  /** Where the remembered part of a time-ordered list of admissions begins. */
  function Cut(limits: Limits, es: seq<Entry>, now: int): (k: nat)
    ensures k <= |es|
  {
    var byWindow := Stale(limits, es, now);
    var bySize := |es| - limits.maxEntries;
    if bySize > |es| then |es| else if bySize > byWindow then bySize else byWindow
  }

  /** The first entry of a time-ordered list is in the window: so are all, and none is dropped. */
  lemma NothingStale(limits: Limits, es: seq<Entry>, now: int)
    requires InTimeOrder(es) && es != [] && InWindow(limits, now, es[0].at)
    ensures Stale(limits, es[1..], now) == 0
  {
    if |es| > 1 { assert OrderedAt(es, 0, 1); }
  }

  lemma FilterStep(limits: Limits, es: seq<Entry>, now: int)
    requires es != []
    ensures Filter(StillFresh(limits, now), es)
         == (if InWindow(limits, now, es[0].at) then [es[0]] else []) + Filter(StillFresh(limits, now), es[1..])
  {
  }

  lemma {:induction false} FilterOfOrdered(limits: Limits, es: seq<Entry>, now: int)
    requires InTimeOrder(es)
    ensures Filter(StillFresh(limits, now), es) == es[Stale(limits, es, now)..]
  {
    if es != [] {
      OrderedDrop(es, 1);
      FilterOfOrdered(limits, es[1..], now);
      FilterStep(limits, es, now);
      var k := Stale(limits, es[1..], now);
      if InWindow(limits, now, es[0].at) {
        NothingStale(limits, es, now);
        assert es[1..][0..] == es[1..] && es == [es[0]] + es[1..];
      } else {
        assert es[1..][k..] == es[k + 1..];
      }
    }
  }

  /** A count with the properties of `Stale` is `Stale`. */
  lemma StaleIs(limits: Limits, es: seq<Entry>, now: int, k: nat)
    requires k <= |es|
    requires forall i | 0 <= i < k :: !InWindow(limits, now, es[i].at)
    requires k < |es| ==> InWindow(limits, now, es[k].at)
    ensures Stale(limits, es, now) == k
  {
    var m := Stale(limits, es, now);
    assert m <= |es|;
  }

  lemma StaleOfDrop(limits: Limits, es: seq<Entry>, now: int, j: nat)
    requires InTimeOrder(es) && j <= |es|
    ensures var k := Stale(limits, es, now);
            Stale(limits, es[j..], now) == if k >= j then k - j else 0
  {
    var k := Stale(limits, es, now);
    var m := if k >= j then k - j else 0;
    assert OrderedAt(es, k, j);
    StaleIs(limits, es[j..], now, m);
  }

  function Later(a: int, b: int): int {
    if a > b then a else b
  }

  lemma LastOfDrop<T>(xs: seq<T>, k: nat, n: int)
    requires k <= |xs|
    ensures LastOf(xs[k..], n) == xs[if n < 0 then |xs| else Later(k, |xs| - n)..]
  {
    if 0 <= n < |xs| - k {
      assert xs[k..][|xs| - k - n..] == xs[|xs| - n..];
    }
  }

  lemma DropDrop<T>(xs: seq<T>, j: nat, m: nat)
    requires j + m <= |xs|
    ensures xs[j..][m..] == xs[j + m..]
  {
  }

  lemma FilterOfDrop(limits: Limits, es: seq<Entry>, now: int, j: nat)
    requires InTimeOrder(es) && j <= |es|
    ensures Filter(StillFresh(limits, now), es[j..]) == es[Later(j, Stale(limits, es, now))..]
  {
    OrderedDrop(es, j);
    FilterOfOrdered(limits, es[j..], now);
    StaleOfDrop(limits, es, now, j);
    DropDrop(es, j, Stale(limits, es[j..], now));
  }

  /** An eviction of a recent enough suffix leaves the remembered part of the whole. */
  lemma EvictedSuffix(limits: Limits, es: seq<Entry>, now: int, j: nat)
    requires InTimeOrder(es) && j <= Cut(limits, es, now)
    ensures Evicted(limits, es[j..], now) == es[Cut(limits, es, now)..]
  {
    FilterOfDrop(limits, es, now, j);
    LastOfDrop(es, Later(j, Stale(limits, es, now)), limits.maxEntries);
  }

  lemma StaleGrows(limits: Limits, es: seq<Entry>, e: Entry, now: int, later: int)
    requires now <= later
    ensures Stale(limits, es, now) <= Stale(limits, es + [e], later)
  {
    var k := Stale(limits, es, now);
    assert forall i | 0 <= i < k :: !InWindow(limits, later, (es + [e])[i].at);
  }

  lemma CutGrows(limits: Limits, es: seq<Entry>, e: Entry, now: int, later: int)
    requires now <= later
    ensures Cut(limits, es, now) <= Cut(limits, es + [e], later)
    ensures Cut(limits, es, now) <= Cut(limits, es, later)
  {
    StaleGrows(limits, es, e, now, later);
    var k := Stale(limits, es, now);
    assert forall i | 0 <= i < k :: !InWindow(limits, later, es[i].at);
  }

  predicate DifferAt(es: seq<Entry>, i: int, j: int) {
    0 <= i < j < |es| ==> es[i].id != es[j].id
  }

  ghost predicate DistinctIds(es: seq<Entry>) {
    forall i, j :: DifferAt(es, i, j)
  }

  lemma DistinctDrop(es: seq<Entry>, k: nat)
    requires DistinctIds(es) && k <= |es|
    ensures DistinctIds(es[k..])
  {
    forall i, j ensures DifferAt(es[k..], i, j) {
      assert DifferAt(es, k + i, k + j);
    }
  }

  lemma DistinctMore(es: seq<Entry>, e: Entry)
    requires DistinctIds(es) && !HasId(es, e.id)
    ensures DistinctIds(es + [e])
  {
    forall i, j ensures DifferAt(es + [e], i, j) {
      assert DifferAt(es, i, j);
    }
  }

  /** The log is a time-ordered suffix of the admissions, of distinct ids, and of bounded size;
      nothing still remembered by the rule has been dropped. */
  ghost predicate Inv(limits: Limits, seen: seq<Entry>, admitted: seq<Entry>, now: int) {
    && InTimeOrder(admitted) && UpTo(admitted, now)
    && DistinctIds(seen)
    && |seen| <= (if limits.maxEntries < 0 then 0 else limits.maxEntries) + 1
    && |seen| <= |admitted|
    && seen == admitted[|admitted| - |seen|..]
    && |admitted| - |seen| <= Cut(limits, admitted, now)
  }

  /** Some admission of `id` lies within the window and among the last `maxEntries`. */
  ghost predicate Remembered(limits: Limits, admitted: seq<Entry>, id: Text, now: int) {
    exists i :: 0 <= i < |admitted| && admitted[i].id == id
                && InWindow(limits, now, admitted[i].at) && |admitted| - i <= limits.maxEntries
  }

  lemma RememberedIsCut(limits: Limits, es: seq<Entry>, id: Text, now: int)
    requires InTimeOrder(es)
    ensures HasId(es[Cut(limits, es, now)..], id) <==> Remembered(limits, es, id, now)
  {
    var k := Cut(limits, es, now);
    if HasId(es[k..], id) {
      var i :| 0 <= i < |es[k..]| && es[k..][i].id == id;
      var s := Stale(limits, es, now);
      assert OrderedAt(es, s, k + i);
      assert es[k + i].id == id;
    }
    if Remembered(limits, es, id, now) {
      var i :| 0 <= i < |es| && es[i].id == id && InWindow(limits, now, es[i].at) && |es| - i <= limits.maxEntries;
      assert es[k..][i - k].id == id;
    }
  }

  /** One eviction removes a prefix, and leaves what the simple rule remembers. */
  lemma OneEviction(limits: Limits, seen: seq<Entry>, admitted: seq<Entry>, last: int, now: int) returns (d: nat)
    requires Inv(limits, seen, admitted, last) && last <= now
    ensures d <= |seen| && Evicted(limits, seen, now) == seen[d..] == admitted[Cut(limits, admitted, now)..]
    ensures |admitted| - |seen| + d == Cut(limits, admitted, now)
  {
    var j := |admitted| - |seen|;
    var k := Cut(limits, admitted, now);
    CutGrows(limits, admitted, Entry([], now), last, now);
    EvictedSuffix(limits, admitted, now, j);
    assert admitted[j..][k - j..] == admitted[k..];
    d := k - j;
  }

  lemma KeptSize(limits: Limits, es: seq<Entry>, now: int)
    ensures |es[Cut(limits, es, now)..]| <= if limits.maxEntries < 0 then 0 else limits.maxEntries
  {
  }

  lemma InvKept(limits: Limits, seen: seq<Entry>, admitted: seq<Entry>, d: nat, now: int)
    requires InTimeOrder(admitted) && UpTo(admitted, now) && DistinctIds(seen)
    requires |seen| <= |admitted| && d <= |seen| && seen == admitted[|admitted| - |seen|..]
    requires |admitted| - |seen| + d == Cut(limits, admitted, now)
    ensures Inv(limits, seen[d..], admitted, now)
  {
    KeptSize(limits, admitted, now);
    DistinctDrop(seen, d);
    var j := |admitted| - |seen|;
    assert seen[d..] == admitted[j + d..];
  }

  lemma InvMore(limits: Limits, seen: seq<Entry>, admitted: seq<Entry>, e: Entry)
    requires Inv(limits, seen, admitted, e.at) && |admitted| - |seen| == Cut(limits, admitted, e.at)
    requires !HasId(seen, e.id)
    ensures Inv(limits, seen + [e], admitted + [e], e.at)
  {
    KeptSize(limits, admitted, e.at);
    CutGrows(limits, admitted, e, e.at, e.at);
    DistinctMore(seen, e);
    OrderedMore(admitted, e);
    var k := |admitted| - |seen|;
    assert (admitted + [e])[k..] == seen + [e];
  }

  lemma InvAfter(limits: Limits, h: History, c: Call, last: int)
    requires Inv(limits, h.seen, h.admitted, last) && last <= c.now
    ensures Inv(limits, After(limits, h, c).seen, After(limits, h, c).admitted, c.now)
  {
    var d := OneEviction(limits, h.seen, h.admitted, last, c.now);
    assert UpTo(h.admitted, c.now);
    InvKept(limits, h.seen, h.admitted, d, c.now);
    if !HasId(h.seen[d..], c.id) {
      InvMore(limits, h.seen[d..], h.admitted, Entry(c.id, c.now));
    }
  }

  ghost predicate RunOk(limits: Limits, calls: seq<Call>) {
    calls != [] ==>
      var h := Run(limits, calls);
      Inv(limits, h.seen, h.admitted, calls[|calls| - 1].now)
  }

  lemma RunStep(limits: Limits, calls: seq<Call>, k: nat)
    requires k < |calls|
    ensures Run(limits, calls[..k + 1]) == After(limits, Run(limits, calls[..k]), calls[k])
  {
    assert calls[..k + 1][..k] == calls[..k];
  }

  lemma RunWhole(limits: Limits, calls: seq<Call>)
    requires calls != []
    ensures Run(limits, calls) == After(limits, Run(limits, calls[..|calls| - 1]), calls[|calls| - 1])
  {
  }

  lemma InvBefore(limits: Limits, calls: seq<Call>, last: int)
    requires RunOk(limits, calls)
    requires calls != [] ==> last == calls[|calls| - 1].now
    ensures Inv(limits, Run(limits, calls).seen, Run(limits, calls).admitted, last)
  {
  }

  /** Suffix and size: over every run of a clock that does not go back. */
  lemma {:induction false} SuffixOfAdmissions(limits: Limits, calls: seq<Call>)
    requires Clock(calls)
    ensures RunOk(limits, calls)
  {
    if calls != [] {
      var n := |calls| - 1;
      SuffixOfAdmissions(limits, calls[..n]);
      var last := if n == 0 then calls[n].now else calls[n - 1].now;
      InvBefore(limits, calls[..n], last);
      RunWhole(limits, calls);
      InvAfter(limits, Run(limits, calls[..n]), calls[n], last);
    }
  }

  /** The eviction before an answer removes a prefix of the log, and leaves what the rule remembers. */
  lemma EvictsPrefix(limits: Limits, calls: seq<Call>, k: nat) returns (d: nat)
    requires Clock(calls) && k < |calls|
    ensures var h, now := Run(limits, calls[..k]), calls[k].now;
            && d <= |h.seen| && Evicted(limits, h.seen, now) == h.seen[d..]
            && h.seen[d..] == h.admitted[Cut(limits, h.admitted, now)..] && InTimeOrder(h.admitted)
  {
    SuffixOfAdmissions(limits, calls[..k]);
    var last := if k == 0 then calls[k].now else calls[k - 1].now;
    InvBefore(limits, calls[..k], last);
    d := OneEviction(limits, Run(limits, calls[..k]).seen, Run(limits, calls[..k]).admitted, last, calls[k].now);
  }

  lemma AnswerIs(limits: Limits, h: History, c: Call)
    ensures After(limits, h, c).answers[|h.answers|] == !HasId(Evicted(limits, h.seen, c.now), c.id)
  {
  }

  /** Exact refinement: whatever was evicted, the answer depends on the admissions alone. An event
      is refused exactly when it is among the last `maxEntries` admissions and within the window. */
  lemma AdmitExact(limits: Limits, calls: seq<Call>, k: nat)
    requires Clock(calls) && k < |calls|
    ensures var before := Run(limits, calls[..k]).admitted;
            Run(limits, calls[..k + 1]).answers[k] <==> !Remembered(limits, before, calls[k].id, calls[k].now)
  {
    var d := EvictsPrefix(limits, calls, k);
    RunStep(limits, calls, k);
    AnswerIs(limits, Run(limits, calls[..k]), calls[k]);
    RememberedIsCut(limits, Run(limits, calls[..k]).admitted, calls[k].id, calls[k].now);
  }

  /** An admission was not remembered by those before it. */
  ghost predicate AllNew(limits: Limits, admitted: seq<Entry>) {
    forall j | 0 <= j < |admitted| :: !Remembered(limits, admitted[..j], admitted[j].id, admitted[j].at)
  }

  lemma {:induction false} AdmissionsAreNew(limits: Limits, calls: seq<Call>)
    requires Clock(calls)
    ensures AllNew(limits, Run(limits, calls).admitted)
  {
    if calls != [] {
      var k := |calls| - 1;
      AdmissionsAreNew(limits, calls[..k]);
      AdmitExact(limits, calls, k);
      assert calls[..k + 1] == calls;
      var before, now := Run(limits, calls[..k]).admitted, Run(limits, calls).admitted;
      forall j | 0 <= j < |now| ensures !Remembered(limits, now[..j], now[j].id, now[j].at) {
        if j < |before| {
          assert now[..j] == before[..j] && now[j] == before[j];
        } else {
          assert now[..j] == before;
        }
      }
    }
  }

  /** An event admitted twice: more than the window lies between, or at least `maxEntries` other
      admissions do. */
  lemma AdmittedTwice(limits: Limits, calls: seq<Call>, i: nat, j: nat)
    requires Clock(calls)
    requires i < j < |Run(limits, calls).admitted|
    requires Run(limits, calls).admitted[i].id == Run(limits, calls).admitted[j].id
    ensures var es := Run(limits, calls).admitted;
            es[j].at - es[i].at > limits.windowMs || j - i - 1 >= limits.maxEntries
  {
    AdmissionsAreNew(limits, calls);
    var es := Run(limits, calls).admitted;
    assert !Remembered(limits, es[..j], es[j].id, es[j].at);
    assert es[..j][i] == es[i];
  }

  // ----- against a list without a bound -----

  ghost predicate SeenInWindow(limits: Limits, admitted: seq<Entry>, id: Text, now: int) {
    exists i :: 0 <= i < |admitted| && admitted[i].id == id && InWindow(limits, now, admitted[i].at)
  }

  /** Admits whatever was not admitted within the window, and remembers everything. */
  ghost function Unbounded(limits: Limits, calls: seq<Call>): (r: (seq<Entry>, seq<bool>))
    ensures |r.1| == |calls|
  {
    if calls == [] then ([], []) else
      var before := Unbounded(limits, calls[..|calls| - 1]);
      var c := calls[|calls| - 1];
      if SeenInWindow(limits, before.0, c.id, c.now)
      then (before.0, before.1 + [false]) else (before.0 + [Entry(c.id, c.now)], before.1 + [true])
  }

  /** No call finds its event in the window but beyond the last `maxEntries` admissions. */
  ghost predicate BoundNeverFelt(limits: Limits, calls: seq<Call>) {
    forall k | 0 <= k < |calls| :: NotFelt(limits, calls, k)
  }

  ghost predicate NotFelt(limits: Limits, calls: seq<Call>, k: nat)
    requires k < |calls|
  {
    var before := Unbounded(limits, calls[..k]).0;
    SeenInWindow(limits, before, calls[k].id, calls[k].now) ==>
      Remembered(limits, before, calls[k].id, calls[k].now)
  }

  lemma FeltOfPrefix(limits: Limits, calls: seq<Call>)
    requires calls != []
    ensures var n := |calls| - 1;
            BoundNeverFelt(limits, calls) <==> BoundNeverFelt(limits, calls[..n]) && NotFelt(limits, calls, n)
  {
    var n := |calls| - 1;
    forall k | 0 <= k < n ensures NotFelt(limits, calls, k) <==> NotFelt(limits, calls[..n], k) {
      assert calls[..n][..k] == calls[..k];
    }
    if BoundNeverFelt(limits, calls[..n]) && NotFelt(limits, calls, n) {
      forall k | 0 <= k < |calls| ensures NotFelt(limits, calls, k) {
        if k < n { assert NotFelt(limits, calls[..n], k); }
      }
    }
    if BoundNeverFelt(limits, calls) {
      forall k | 0 <= k < n ensures NotFelt(limits, calls[..n], k) {
        assert NotFelt(limits, calls, k);
      }
    }
  }

  /** The bounded log answers every call like the unbounded list exactly when its bound is never
      felt; the admissions are then the same too. */
  lemma {:induction false} AgreesWithUnbounded(limits: Limits, calls: seq<Call>)
    requires Clock(calls)
    ensures Run(limits, calls).answers == Unbounded(limits, calls).1 <==> BoundNeverFelt(limits, calls)
    ensures BoundNeverFelt(limits, calls) ==> Run(limits, calls).admitted == Unbounded(limits, calls).0
  {
    if calls != [] {
      var n := |calls| - 1;
      var init := calls[..n];
      AgreesWithUnbounded(limits, init);
      FeltOfPrefix(limits, calls);
      AdmitExact(limits, calls, n);
      assert calls[..n + 1] == calls;
      var a, b := Run(limits, calls).answers, Unbounded(limits, calls).1;
      assert a[..n] == Run(limits, init).answers && b[..n] == Unbounded(limits, init).1;
      RememberedIsSeen(limits, Unbounded(limits, init).0, calls[n].id, calls[n].now);
      if a == b {
        assert a[..n] == b[..n] && a[n] == b[n];
      } else if a[..n] == b[..n] {
        assert a == a[..n] + [a[n]] && b == b[..n] + [b[n]];
      }
    }
  }

  lemma RememberedIsSeen(limits: Limits, es: seq<Entry>, id: Text, now: int)
    ensures Remembered(limits, es, id, now) ==> SeenInWindow(limits, es, id, now)
  {
    if Remembered(limits, es, id, now) {
      var i :| 0 <= i < |es| && es[i].id == id && InWindow(limits, now, es[i].at) && |es| - i <= limits.maxEntries;
    }
  }

  /** In particular while each window holds at most `maxEntries` admissions. */
  lemma FewEnough(limits: Limits, calls: seq<Call>)
    requires Clock(calls)
    requires forall k | 0 <= k < |calls| ::
               |Filter(StillFresh(limits, calls[k].now), Unbounded(limits, calls[..k]).0)| <= limits.maxEntries
    ensures Run(limits, calls).answers == Unbounded(limits, calls).1
  {
    forall k | 0 <= k < |calls| ensures NotFelt(limits, calls, k) {
      var es := Unbounded(limits, calls[..k]).0;
      assert |Filter(StillFresh(limits, calls[k].now), es)| <= limits.maxEntries;
      UnboundedInOrder(limits, calls[..k]);
      FilterOfOrdered(limits, es, calls[k].now);
      if SeenInWindow(limits, es, calls[k].id, calls[k].now) {
        var i :| 0 <= i < |es| && es[i].id == calls[k].id && InWindow(limits, calls[k].now, es[i].at);
        assert i >= Stale(limits, es, calls[k].now);
        assert |es| - i <= limits.maxEntries;
      }
    }
    AgreesWithUnbounded(limits, calls);
  }

  lemma {:induction false} UnboundedInOrder(limits: Limits, calls: seq<Call>)
    requires Clock(calls)
    ensures InTimeOrder(Unbounded(limits, calls).0)
    ensures calls != [] ==> UpTo(Unbounded(limits, calls).0, calls[|calls| - 1].now)
  {
    if calls != [] {
      var n := |calls| - 1;
      UnboundedInOrder(limits, calls[..n]);
      if n > 0 { assert calls[n - 1].now <= calls[n].now; }
      OrderedMore(Unbounded(limits, calls[..n]).0, Entry(calls[n].id, calls[n].now));
    }
  }

  // ----- the identity of an event -----

  datatype ChainEvent = ChainEvent(chainId: int, blockNumber: Text, transactionHash: Text, logIndex: int)

  const COLON: Unit := 58
  const MINUS: Unit := 45

  function DecInt(i: int): Text {
    if i < 0 then [MINUS] + Dec(-i) else Dec(i)
  }

  /** `lower` is `String.prototype.toLowerCase`. */
  function EventId(lower: Text -> Text, e: ChainEvent): Text {
    DecInt(e.chainId) + ([COLON]
                         + (e.blockNumber + ([COLON] + (lower(e.transactionHash) + ([COLON] + DecInt(e.logIndex))))))
  }

  lemma DecIntHasNoColon(i: int)
    ensures COLON !in DecInt(i)
  {
    assert AllDigits(Dec(if i < 0 then -i else i));
  }

  lemma DecIntInjective(i: int, j: int)
    ensures DecInt(i) == DecInt(j) <==> i == j
  {
    DecValueOfDec(if i < 0 then -i else i);
    DecValueOfDec(if j < 0 then -j else j);
    var a, b := Dec(if i < 0 then -i else i), Dec(if j < 0 then -j else j);
    assert AllDigits(a) && AllDigits(b) && IsDigit(a[0]) && IsDigit(b[0]);
    assert i < 0 ==> DecInt(i)[1..] == a;
    assert j < 0 ==> DecInt(j)[1..] == b;
  }

  /** Two texts cut at their first colon. */
  lemma FirstColon(a: Text, x: Text, b: Text, y: Text)
    requires COLON !in a && COLON !in b
    ensures a + ([COLON] + x) == b + ([COLON] + y) <==> a == b && x == y
  {
    var s, t := a + ([COLON] + x), b + ([COLON] + y);
    assert s[|a|] == COLON && t[|b|] == COLON;
    assert |a| < |b| ==> t[|a|] == b[|a|];
    assert |b| < |a| ==> s[|b|] == a[|b|];
    if s == t {
      assert a == s[..|a|] && b == t[..|b|];
      assert x == s[|a| + 1..] && y == t[|b| + 1..];
    }
  }

  /** Two texts cut at their last colon. */
  lemma LastColon(x: Text, a: Text, y: Text, b: Text)
    requires COLON !in a && COLON !in b
    ensures x + ([COLON] + a) == y + ([COLON] + b) <==> x == y && a == b
  {
    var s, t := x + ([COLON] + a), y + ([COLON] + b);
    assert s[|x|] == COLON && t[|y|] == COLON;
    assert |x| < |y| < |s| ==> s[|y|] == a[|y| - |x| - 1];
    assert |y| < |x| < |t| ==> t[|x|] == b[|x| - |y| - 1];
    if s == t {
      assert x == s[..|x|] && y == t[..|y|];
      assert a == s[|x| + 1..] && b == t[|y| + 1..];
    }
  }

  /** Exactly which events share an identity: the block and the hash are only told apart together. */
  lemma EventIdExact(lower: Text -> Text, e: ChainEvent, f: ChainEvent)
    ensures EventId(lower, e) == EventId(lower, f) <==>
            && e.chainId == f.chainId && e.logIndex == f.logIndex
            && e.blockNumber + ([COLON] + lower(e.transactionHash))
               == f.blockNumber + ([COLON] + lower(f.transactionHash))
  {
    var x, y := e.blockNumber + ([COLON] + lower(e.transactionHash)),
      f.blockNumber + ([COLON] + lower(f.transactionHash));
    var a, b := DecInt(e.logIndex), DecInt(f.logIndex);
    IdParts(e.blockNumber, lower(e.transactionHash), a);
    IdParts(f.blockNumber, lower(f.transactionHash), b);
    DecIntHasNoColon(e.chainId);
    DecIntHasNoColon(f.chainId);
    DecIntHasNoColon(e.logIndex);
    DecIntHasNoColon(f.logIndex);
    DecIntInjective(e.chainId, f.chainId);
    DecIntInjective(e.logIndex, f.logIndex);
    LastColon(x, a, y, b);
    FirstColon(DecInt(e.chainId), x + ([COLON] + a), DecInt(f.chainId), y + ([COLON] + b));
  }

  lemma IdParts(block: Text, hash: Text, index: Text)
    ensures block + ([COLON] + (hash + ([COLON] + index))) == (block + ([COLON] + hash)) + ([COLON] + index)
  {
    Assoc([COLON], hash, [COLON] + index);
    Assoc(block, [COLON] + hash, [COLON] + index);
  }

  /** The fields that an identity is meant to tell apart; hashes are compared without case. */
  predicate SameLog(lower: Text -> Text, e: ChainEvent, f: ChainEvent) {
    && e.chainId == f.chainId && e.blockNumber == f.blockNumber && e.logIndex == f.logIndex
    && lower(e.transactionHash) == lower(f.transactionHash)
  }

  /** Block numbers without a colon: distinct logs have distinct identities, whatever the hashes are. */
  lemma EventIdInjective(lower: Text -> Text, e: ChainEvent, f: ChainEvent)
    requires COLON !in e.blockNumber && COLON !in f.blockNumber
    ensures EventId(lower, e) == EventId(lower, f) <==> SameLog(lower, e, f)
  {
    EventIdExact(lower, e, f);
    FirstColon(e.blockNumber, lower(e.transactionHash), f.blockNumber, lower(f.transactionHash));
  }

  /** Hashes without a colon: likewise, whatever the block numbers are. */
  lemma EventIdInjectiveOfHashes(lower: Text -> Text, e: ChainEvent, f: ChainEvent)
    requires COLON !in lower(e.transactionHash) && COLON !in lower(f.transactionHash)
    ensures EventId(lower, e) == EventId(lower, f) <==> SameLog(lower, e, f)
  {
    EventIdExact(lower, e, f);
    LastColon(e.blockNumber, lower(e.transactionHash), f.blockNumber, lower(f.transactionHash));
  }

  /** A text that lower-casing leaves as it is. */
  predicate Fixed(lower: Text -> Text, t: Text) {
    lower(t) == t
  }

  predicate SplitsAt(lower: Text -> Text, a: Text, b: Text) {
    Fixed(lower, a + ([COLON] + b)) <==> Fixed(lower, a) && Fixed(lower, b)
  }

  /** What is used of `toLowerCase`: doing it twice is doing it once, and a colon separates what it does. */
  ghost predicate LowerCases(lower: Text -> Text) {
    (forall t: Text :: Fixed(lower, lower(t))) && (forall a: Text, b: Text :: SplitsAt(lower, a, b))
  }

  ghost predicate HasTwin(lower: Text -> Text, e: ChainEvent) {
    exists f: ChainEvent :: EventId(lower, f) == EventId(lower, e) && !SameLog(lower, e, f)
  }

  /** The block can be cut at a colon into a shorter block and the beginning of a hash. */
  predicate CutsAt(lower: Text -> Text, block: Text, p: int) {
    0 <= p < |block| && block[p] == COLON && Fixed(lower, block[p + 1..])
  }

  ghost predicate Cuttable(lower: Text -> Text, block: Text) {
    exists p :: CutsAt(lower, block, p)
  }

  lemma CutOfBlock(lower: Text -> Text, e: ChainEvent, p: nat)
    requires LowerCases(lower) && CutsAt(lower, e.blockNumber, p)
    ensures HasTwin(lower, e)
  {
    var block, h := e.blockNumber, lower(e.transactionHash);
    var f := ChainEvent(e.chainId, block[..p], block[p + 1..] + ([COLON] + h), e.logIndex);
    assert Fixed(lower, lower(e.transactionHash));
    assert SplitsAt(lower, block[p + 1..], h);
    assert block == block[..p] + ([COLON] + block[p + 1..]);
    Assoc(block[..p], [COLON] + block[p + 1..], [COLON] + h);
    Assoc([COLON], block[p + 1..], [COLON] + h);
    EventIdExact(lower, f, e);
    assert |f.blockNumber| != |block|;
  }

  lemma CutOfHash(lower: Text -> Text, e: ChainEvent, i: nat)
    requires LowerCases(lower) && i < |lower(e.transactionHash)| && lower(e.transactionHash)[i] == COLON
    ensures HasTwin(lower, e)
  {
    var block, h := e.blockNumber, lower(e.transactionHash);
    var f := ChainEvent(e.chainId, block + ([COLON] + h[..i]), h[i + 1..], e.logIndex);
    assert Fixed(lower, h);
    assert h == h[..i] + ([COLON] + h[i + 1..]);
    assert SplitsAt(lower, h[..i], h[i + 1..]);
    Assoc(block, [COLON] + h[..i], [COLON] + h[i + 1..]);
    Assoc([COLON], h[..i], [COLON] + h[i + 1..]);
    EventIdExact(lower, f, e);
    assert |f.blockNumber| != |block|;
  }

  /** Where a shorter block ends, the longer one has a colon. */
  lemma CutBefore(a: Text, x: Text, b: Text, y: Text)
    requires a + ([COLON] + x) == b + ([COLON] + y) && |a| < |b|
    ensures b[|a|] == COLON && x == b[|a| + 1..] + ([COLON] + y)
  {
    var s, t := a + ([COLON] + x), b + ([COLON] + y);
    assert s[|a|] == COLON && t[|a|] == b[|a|];
    assert s[|a| + 1..] == x;
    assert t[|a| + 1..] == b[|a| + 1..] + ([COLON] + y);
  }

  lemma SameCut(a: Text, x: Text, b: Text, y: Text)
    requires a + ([COLON] + x) == b + ([COLON] + y) && |a| == |b|
    ensures a == b && x == y
  {
    var s, t := a + ([COLON] + x), b + ([COLON] + y);
    assert a == s[..|a|] && b == t[..|a|] && x == s[|a| + 1..] && y == t[|a| + 1..];
  }

  lemma TwinCuts(lower: Text -> Text, e: ChainEvent, f: ChainEvent)
    requires LowerCases(lower) && EventId(lower, f) == EventId(lower, e) && !SameLog(lower, e, f)
    ensures COLON in lower(e.transactionHash) || Cuttable(lower, e.blockNumber)
  {
    EventIdExact(lower, f, e);
    var a, x, b, y := f.blockNumber, lower(f.transactionHash), e.blockNumber, lower(e.transactionHash);
    if |a| < |b| {
      CutBefore(a, x, b, y);
      assert Fixed(lower, x);
      assert SplitsAt(lower, b[|a| + 1..], y);
      assert CutsAt(lower, b, |a|);
    } else if |b| < |a| {
      CutBefore(b, y, a, x);
      assert (a[|b| + 1..] + ([COLON] + x))[|a| - |b| - 1] == COLON;
    } else {
      SameCut(a, x, b, y);
      assert false;
    }
  }

  /** An event shares its identity with another log exactly when its lower-cased hash has a colon, or its block
      has one with only lower case after it. */
  lemma EventIdUniqueExactly(lower: Text -> Text, e: ChainEvent)
    requires LowerCases(lower)
    ensures HasTwin(lower, e) <==> COLON in lower(e.transactionHash) || Cuttable(lower, e.blockNumber)
  {
    if HasTwin(lower, e) {
      var f: ChainEvent :| EventId(lower, f) == EventId(lower, e) && !SameLog(lower, e, f);
      TwinCuts(lower, e, f);
    }
    if i :| 0 <= i < |lower(e.transactionHash)| && lower(e.transactionHash)[i] == COLON {
      CutOfHash(lower, e, i);
    }
    if p :| CutsAt(lower, e.blockNumber, p) {
      CutOfBlock(lower, e, p);
    }
  }

  /** So for a block number in lower case: exactly when neither the block nor the lower-cased hash has a colon
      does no other log share the identity. */
  lemma EventIdUnique(lower: Text -> Text, e: ChainEvent)
    requires LowerCases(lower) && Fixed(lower, e.blockNumber)
    ensures !HasTwin(lower, e) <==> COLON !in e.blockNumber && COLON !in lower(e.transactionHash)
  {
    EventIdUniqueExactly(lower, e);
    if p :| 0 <= p < |e.blockNumber| && e.blockNumber[p] == COLON {
      ColonCuts(lower, e.blockNumber, p);
    }
  }

  lemma ColonCuts(lower: Text -> Text, block: Text, p: nat)
    requires LowerCases(lower) && Fixed(lower, block) && p < |block| && block[p] == COLON
    ensures Cuttable(lower, block)
  {
    assert block == block[..p] + ([COLON] + block[p + 1..]);
    assert SplitsAt(lower, block[..p], block[p + 1..]);
    assert CutsAt(lower, block, p);
  }

  /** A block number is any string, and one with a colon can collide. */
  lemma EventIdCollision(lower: Text -> Text)
    requires lower(Ascii("f")) == Ascii("f") && lower(Ascii("3:f")) == Ascii("3:f")
    ensures var e := ChainEvent(1, Ascii("2:3"), Ascii("f"), 0);
            var f := ChainEvent(1, Ascii("2"), Ascii("3:f"), 0);
            e != f && EventId(lower, e) == EventId(lower, f)
  {
    var e := ChainEvent(1, Ascii("2:3"), Ascii("f"), 0);
    var f := ChainEvent(1, Ascii("2"), Ascii("3:f"), 0);
    EventIdExact(lower, e, f);
    assert |e.blockNumber| != |f.blockNumber|;
    assert Ascii("2:3") + ([COLON] + Ascii("f")) == Ascii("2") + ([COLON] + Ascii("3:f"));
  }

  // ----- the cursor -----

  datatype Cursor = Cursor(agentId: Text, deploymentId: Text, lastFinalizedBlock: nat)

  datatype CheckpointReason = WouldGoBackwards | WrongAgent | NotFinalized

  function AssertAdvance(from: Option<Cursor>, to: Cursor, finalizedHead: int): Option<CheckpointReason> {
    if from.Some? && (to.agentId != from.value.agentId || to.deploymentId != from.value.deploymentId)
      then Some(WrongAgent)
    else if to.lastFinalizedBlock > finalizedHead then Some(NotFinalized)
    else if from.Some? && to.lastFinalizedBlock < from.value.lastFinalizedBlock then Some(WouldGoBackwards)
    else None
  }

  datatype Attempt = Attempt(to: Cursor, finalizedHead: int)

  function Advance(from: Option<Cursor>, a: Attempt): Option<Cursor> {
    if AssertAdvance(from, a.to, a.finalizedHead).None? then Some(a.to) else from
  }

  /** The cursor after each attempt, starting from none. */
  function CursorAfter(attempts: seq<Attempt>): Option<Cursor> {
    if attempts == [] then None
    else Advance(CursorAfter(attempts[..|attempts| - 1]), attempts[|attempts| - 1])
  }

  /** Over any attempts: the cursor never changes owner, never goes back, and lies at or below a
      head that was announced as final. */
  lemma {:induction false} CursorOnlyAdvances(attempts: seq<Attempt>, k: nat)
    requires k <= |attempts|
    ensures var p, q := CursorAfter(attempts[..k]), CursorAfter(attempts);
            p.Some? ==> q.Some? && p.value.agentId == q.value.agentId && p.value.deploymentId == q.value.deploymentId
                        && p.value.lastFinalizedBlock <= q.value.lastFinalizedBlock
    ensures var q := CursorAfter(attempts);
            q.Some? ==> exists i :: 0 <= i < |attempts| && q.value.lastFinalizedBlock <= attempts[i].finalizedHead
                                    && attempts[i].to == q.value
  {
    if k == |attempts| {
      assert attempts[..k] == attempts;
      if k > 0 { CursorOnlyAdvances(attempts, k - 1); }
    } else {
      var n := |attempts| - 1;
      assert attempts[..n][..k] == attempts[..k];
      CursorOnlyAdvances(attempts[..n], k);
      var q := CursorAfter(attempts[..n]);
      if CursorAfter(attempts) == q && q.Some? {
        var i :| 0 <= i < |attempts[..n]| && q.value.lastFinalizedBlock <= attempts[..n][i].finalizedHead
                 && attempts[..n][i].to == q.value;
        assert attempts[i].to == q.value;
      } else if CursorAfter(attempts).Some? {
        assert attempts[n].to == CursorAfter(attempts).value;
      }
    }
  }
}
