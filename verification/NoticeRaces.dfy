/**
 * "Raised once per run per name" when raises overlap (src/notifications/unknown_channel.ts:45-69): looking for an
 * earlier notice and storing a new one are two awaits, and raises of any submissions interleave between them.
 */
module NoticeRaces {
  import opened Wrappers
  import opened Channels
  import opened EventRouting
  import opened Cascade

  /**
   * Where a raise stands. The store itself serves as the clock: `seen` is how many events it held when the check found
   * no earlier notice, `at` is the place the raise's own notice took.
   */
  datatype Phase = Begun | Passed(seen: nat) | Noted(seen: nat, at: nat) | Ended

  /** One call for one missing name of one event. */
  datatype Raise = Raise(event: SubmittedEvent, name: string, phase: Phase)

  datatype State = State(stored: seq<SubmittedEvent>, raises: seq<Raise>)

  /**
   * `Check` may fail, and `Store` may take no effect; either way the raise ends and its caller carries on. `Other` is
   * any event that is not a notice of this kind: only raises submit those.
   */
  datatype Action =
    | Begin(event: SubmittedEvent, name: string)
    | Check(raise: nat, fails: bool)
    | Store(raise: nat, applied: bool)
    | Other(event: SubmittedEvent)

  const EMPTY := State([], [])

  function Notice(r: Raise): SubmittedEvent {
    UnknownChannelEvent(r.event, r.name)
  }

  function SetPhase(s: State, k: nat, p: Phase): State
    requires k < |s.raises|
  {
    s.(raises := s.raises[k := s.raises[k].(phase := p)])
  }

  /** Without a run id nothing is looked up. */
  function DoCheck(s: State, k: nat, fails: bool): State
    requires k < |s.raises|
  {
    var r := s.raises[k];
    if |r.event.run| == 0 then SetPhase(s, k, Passed(|s.stored|))
    else if fails || AlreadyRaised(s.stored, r.event.run, Notice(r).message) then SetPhase(s, k, Ended)
    else SetPhase(s, k, Passed(|s.stored|))
  }

  function DoStore(s: State, k: nat, applied: bool): State
    requires k < |s.raises| && s.raises[k].phase.Passed?
  {
    if !applied then SetPhase(s, k, Ended)
    else SetPhase(s, k, Noted(s.raises[k].phase.seen, |s.stored|)).(stored := s.stored + [Notice(s.raises[k])])
  }

  /** An action that is not enabled changes nothing. */
  function Do(s: State, a: Action): State {
    match a
    case Begin(e, name) => s.(raises := s.raises + [Raise(e, name, Begun)])
    case Check(k, fails) => if k < |s.raises| && s.raises[k].phase.Begun? then DoCheck(s, k, fails) else s
    case Store(k, applied) => if k < |s.raises| && s.raises[k].phase.Passed? then DoStore(s, k, applied) else s
    case Other(e) => if e.kind == UNKNOWN_CHANNEL then s else s.(stored := s.stored + [e])
  }

  function After(s: State, actions: seq<Action>): State
    decreases |actions|
  {
    if |actions| == 0 then s else After(Do(s, actions[0]), actions[1..])
  }

  // ---- What every interleaving keeps. ----

  ghost predicate IsNotice(e: SubmittedEvent, run: string, name: string) {
    e.kind == UNKNOWN_CHANNEL && e.run == run && e.message == UnknownChannelMessage(name)
  }

  /** No notice of the raise was there when it checked. */
  ghost predicate NoneSeen(s: State, r: Raise, seen: nat) {
    && seen <= |s.stored|
    && (|r.event.run| > 0 ==> forall i :: 0 <= i < seen ==> !IsNotice(s.stored[i], r.event.run, r.name))
  }

  ghost predicate RaiseRight(s: State, r: Raise) {
    match r.phase
    case Passed(seen) => NoneSeen(s, r, seen)
    case Noted(seen, at) => NoneSeen(s, r, seen) && seen <= at < |s.stored| && s.stored[at] == Notice(r)
    case _ => true
  }

  ghost predicate NotedAt(s: State, k: nat, i: nat) {
    k < |s.raises| && s.raises[k].phase.Noted? && s.raises[k].phase.at == i
  }

  /** Every notice in the store is some raise's, and no two raises share one. */
  ghost predicate Inv(s: State) {
    && (forall k :: 0 <= k < |s.raises| ==> RaiseRight(s, s.raises[k]))
    && (forall i: nat :: i < |s.stored| && s.stored[i].kind == UNKNOWN_CHANNEL ==> exists k: nat :: NotedAt(s, k, i))
    && (forall j: nat, k: nat, i: nat :: NotedAt(s, j, i) && NotedAt(s, k, i) ==> j == k)
  }

  lemma CheckKeepsInv(s: State, k: nat, fails: bool)
    requires Inv(s) && k < |s.raises| && s.raises[k].phase.Begun?
    ensures Inv(DoCheck(s, k, fails))
  {
    var t := DoCheck(s, k, fails);
    var r := s.raises[k];
    if t.raises[k].phase.Passed? && |r.event.run| > 0 {
      forall i | 0 <= i < |s.stored| ensures !IsNotice(s.stored[i], r.event.run, r.name) {}
    }
    forall i: nat | i < |t.stored| && t.stored[i].kind == UNKNOWN_CHANNEL ensures exists m: nat :: NotedAt(t, m, i) {
      var m: nat :| NotedAt(s, m, i);
      assert NotedAt(t, m, i);
    }
    assert forall m: nat, i: nat :: NotedAt(t, m, i) ==> NotedAt(s, m, i);
  }

  lemma StoreKeepsInv(s: State, k: nat, applied: bool)
    requires Inv(s) && k < |s.raises| && s.raises[k].phase.Passed?
    ensures Inv(DoStore(s, k, applied))
  {
    var t := DoStore(s, k, applied);
    forall m | 0 <= m < |t.raises| ensures RaiseRight(t, t.raises[m]) {}
    forall i: nat | i < |t.stored| && t.stored[i].kind == UNKNOWN_CHANNEL ensures exists m: nat :: NotedAt(t, m, i) {
      if i < |s.stored| {
        var m: nat :| NotedAt(s, m, i);
        assert NotedAt(t, m, i);
      } else {
        assert NotedAt(t, k, i);
      }
    }
    forall m: nat, i: nat | NotedAt(t, m, i) ensures NotedAt(s, m, i) || (m == k && i == |s.stored|) {}
    forall m: nat, i: nat | NotedAt(s, m, i) ensures i < |s.stored| {
      assert RaiseRight(s, s.raises[m]);
    }
  }

  lemma BeginKeepsInv(s: State, e: SubmittedEvent, name: string)
    requires Inv(s)
    ensures Inv(Do(s, Begin(e, name)))
  {
    var t := Do(s, Begin(e, name));
    forall m: nat, i: nat ensures NotedAt(t, m, i) <==> NotedAt(s, m, i) {}
    forall m | 0 <= m < |t.raises| ensures RaiseRight(t, t.raises[m]) {}
  }

  lemma OtherKeepsInv(s: State, e: SubmittedEvent)
    requires Inv(s) && e.kind != UNKNOWN_CHANNEL
    ensures Inv(Do(s, Other(e)))
  {
    var t := Do(s, Other(e));
    forall m: nat, i: nat ensures NotedAt(t, m, i) <==> NotedAt(s, m, i) {}
    forall m | 0 <= m < |t.raises| ensures RaiseRight(t, t.raises[m]) {}
  }

  lemma DoKeepsInv(s: State, a: Action)
    requires Inv(s)
    ensures Inv(Do(s, a))
  {
    match a {
      case Begin(e, name) => BeginKeepsInv(s, e, name);
      case Check(k, fails) =>
        if k < |s.raises| && s.raises[k].phase.Begun? { CheckKeepsInv(s, k, fails); }
      case Store(k, applied) =>
        if k < |s.raises| && s.raises[k].phase.Passed? { StoreKeepsInv(s, k, applied); }
      case Other(e) =>
        if e.kind != UNKNOWN_CHANNEL { OtherKeepsInv(s, e); }
    }
  }

  lemma {:induction false} RunKeepsInv(s: State, actions: seq<Action>)
    requires Inv(s)
    ensures Inv(After(s, actions))
    decreases |actions|
  {
    if |actions| > 0 {
      DoKeepsInv(s, actions[0]);
      RunKeepsInv(Do(s, actions[0]), actions[1..]);
    }
  }

  /**
   * On a run, a check lets its raise go on exactly when it succeeds and finds no notice of the name; it stores nothing.
   */
  lemma CheckPassesIff(s: State, k: nat, fails: bool)
    requires k < |s.raises| && s.raises[k].phase.Begun? && s.raises[k].event.run != ""
    ensures var t := Do(s, Check(k, fails));
            var r := s.raises[k];
            && t.stored == s.stored
            && (t.raises[k].phase == Passed(|s.stored|) <==>
                  !fails && forall i :: 0 <= i < |s.stored| ==> !IsNotice(s.stored[i], r.event.run, r.name))
            && (t.raises[k].phase != Passed(|s.stored|) ==> t.raises[k].phase == Ended)
  {
  }

  /** A raise that has ended never stores anything. */
  lemma {:induction false} EndedStaysEnded(s: State, actions: seq<Action>, k: nat)
    requires k < |s.raises| && s.raises[k].phase == Ended
    ensures k < |After(s, actions).raises| && After(s, actions).raises[k].phase == Ended
    decreases |actions|
  {
    if |actions| > 0 {
      EndedStaysEnded(Do(s, actions[0]), actions[1..], k);
    }
  }

  /** A store that takes effect adds the raise's own notice; one that does not ends the raise. */
  lemma StoreAdds(s: State, k: nat, applied: bool)
    requires k < |s.raises| && s.raises[k].phase.Passed?
    ensures var t := Do(s, Store(k, applied));
            var r := s.raises[k];
            && (applied ==> |t.stored| == |s.stored| + 1 && t.stored[..|s.stored|] == s.stored
                            && IsNotice(t.stored[|s.stored|], r.event.run, r.name)
                            && t.stored[|s.stored|].realm == r.event.realm)
            && (!applied ==> t.stored == s.stored && t.raises[k].phase == Ended)
  {
  }

  // ---- Once, exactly when no two raises overlap. ----

  ghost predicate StoredOnce(s: State, run: string, name: string) {
    forall i, j :: 0 <= i < j < |s.stored| ==> !(IsNotice(s.stored[i], run, name) && IsNotice(s.stored[j], run, name))
  }

  ghost predicate Raised(s: State, k: nat, run: string, name: string) {
    k < |s.raises| && s.raises[k].event.run == run && s.raises[k].name == name && s.raises[k].phase.Noted?
  }

  /** Two raises that both stored had both checked before either did. */
  ghost predicate Overlap(s: State, j: nat, k: nat, run: string, name: string) {
    && j != k && Raised(s, j, run, name) && Raised(s, k, run, name)
    && s.raises[j].phase.seen <= s.raises[k].phase.at && s.raises[k].phase.seen <= s.raises[j].phase.at
  }

  lemma NoticeOfRaise(r: Raise, run: string, name: string)
    ensures IsNotice(Notice(r), run, name) <==> r.event.run == run && r.name == name
  {
    MessageNamesChannel(r.name, name);
  }

  lemma TwiceMeansOverlap(s: State, run: string, name: string, i: nat, j: nat)
    requires Inv(s) && |run| > 0 && i < j < |s.stored|
    requires IsNotice(s.stored[i], run, name) && IsNotice(s.stored[j], run, name)
    ensures exists a: nat, b: nat :: Overlap(s, a, b, run, name)
  {
    var a: nat :| NotedAt(s, a, i);
    var b: nat :| NotedAt(s, b, j);
    assert RaiseRight(s, s.raises[a]) && RaiseRight(s, s.raises[b]);
    NoticeOfRaise(s.raises[a], run, name);
    NoticeOfRaise(s.raises[b], run, name);
    assert s.raises[b].phase.seen <= i;
    assert Overlap(s, a, b, run, name);
  }

  lemma OverlapMeansTwice(s: State, run: string, name: string, a: nat, b: nat)
    requires Inv(s) && Overlap(s, a, b, run, name)
    ensures !StoredOnce(s, run, name)
  {
    var i, j := s.raises[a].phase.at, s.raises[b].phase.at;
    assert RaiseRight(s, s.raises[a]) && RaiseRight(s, s.raises[b]);
    assert NotedAt(s, a, i) && NotedAt(s, b, j);
    NoticeOfRaise(s.raises[a], run, name);
    NoticeOfRaise(s.raises[b], run, name);
    assert IsNotice(s.stored[i], run, name) && IsNotice(s.stored[j], run, name);
    assert i < j || j < i;
  }

  /**
   * Over every interleaving, with lookups and stores that may fail: a run's notice of a name is stored at most once
   * exactly when no two raises that store it have both checked before either stores.
   */
  lemma NoticeOnceIff(actions: seq<Action>, run: string, name: string)
    requires |run| > 0
    ensures var s := After(EMPTY, actions);
            StoredOnce(s, run, name) <==> !exists a: nat, b: nat :: Overlap(s, a, b, run, name)
  {
    var s := After(EMPTY, actions);
    RunKeepsInv(EMPTY, actions);
    if exists a: nat, b: nat :: Overlap(s, a, b, run, name) {
      var a: nat, b: nat :| Overlap(s, a, b, run, name);
      OverlapMeansTwice(s, run, name, a, b);
    }
    if !StoredOnce(s, run, name) {
      var i, j :| 0 <= i < j < |s.stored| && IsNotice(s.stored[i], run, name) && IsNotice(s.stored[j], run, name);
      TwiceMeansOverlap(s, run, name, i, j);
    }
  }

  /** Two raises that both check first: the notice is stored twice. */
  function BothCheckFirst(e: SubmittedEvent, name: string): seq<Action> {
    [Begin(e, name), Begin(e, name), Check(0, false), Check(1, false), Store(0, true), Store(1, true)]
  }

  lemma RaisedTwice(e: SubmittedEvent, name: string)
    requires |e.run| > 0
    ensures !StoredOnce(After(EMPTY, BothCheckFirst(e, name)), e.run, name)
  {
    var r := Raise(e, name, Begun);
    var note := Notice(r);
    var s1 := State([], [r, r]);
    var s2 := State([], [r.(phase := Passed(0)), r.(phase := Passed(0))]);
    var s3 := State([note, note], [r.(phase := Noted(0, 0)), r.(phase := Noted(0, 1))]);
    var a := BothCheckFirst(e, name);
    FirstTwo(EMPTY, a);
    FirstTwo(s1, a[2..]);
    FirstTwo(s2, a[4..]);
    assert Do(Do(EMPTY, a[0]), a[1]) == s1;
    assert Do(Do(s1, a[2]), a[3]) == s2;
    assert Do(Do(s2, a[4]), a[5]) == s3;
    assert a[2..][2..] == a[4..] && a[4..][2..] == [];
    assert After(EMPTY, a) == s3;
    assert IsNotice(s3.stored[0], e.run, name) && IsNotice(s3.stored[1], e.run, name);
  }

  lemma FirstTwo(s: State, actions: seq<Action>)
    requires |actions| >= 2
    ensures After(s, actions) == After(Do(Do(s, actions[0]), actions[1]), actions[2..])
  {
    assert actions[1..][1..] == actions[2..];
  }
}
