/**
 The life of one graph slot: Empty, Writing, Public, with counted handles. `find_graph` and
 `find_graph_rw` run under the shared registry lock and interleave with each other; the other
 operations hold it exclusively. Reading a body's deleted flag before taking the lock is a step of
 its own, so a body may be deleted and replaced between the check and the locked section.
 */
module SlotProtocol {
  import opened Options

  type Body = nat
  type Ref = nat

  datatype SlotState = Empty | Writing | Public

  /** A handle taken by find_graph: copied and not yet checked, rejected and about to be dropped, or returned. */
  datatype CopyPhase = Copied | Rejected | Returned

  datatype Copy = Copy(body: Body, phase: CopyPhase)

  /** A writer handle: in use; past the unlocked check of a commit, of an abort or of the final release; released but
      still keeping the body alive. */
  datatype WriterPhase = Live | Committing | Aborting | Closing | Done

  datatype Writer = Writer(body: Body, fromCreate: bool, phase: WriterPhase, committed: bool)

  /** `claim` is the body whose slot find_graph_rw has switched to Writing without having looked at the
      use count yet. */
  datatype Slot = Slot(
    state: SlotState,
    abortPending: bool,
    body: Option<Body>,
    deleted: set<Body>,
    frozen: set<Body>,
    nextBody: Body,
    claim: Option<Body>,
    copies: map<Ref, Copy>,
    writers: map<Ref, Writer>)

  // ---------- the steps ----------

  /** Some operation is inside its shared section. */
  predicate SharedHeld(s: Slot)
  {
    s.claim.Some? || exists r :: r in s.copies && !s.copies[r].phase.Returned?
  }

  /** The body has an owner besides the slot. */
  predicate SharedOwners(s: Slot, b: Body)
  {
    || (exists r :: r in s.copies && s.copies[r].body == b)
    || (exists r :: r in s.writers && s.writers[r].body == b)
  }

  datatype Action =
    | Create(w: Ref)
    | FindCopy(r: Ref)
    | FindCheck(r: Ref)
    | FindDrop(r: Ref)
    | ReleaseReader(r: Ref)
    | ShareReader(r: Ref, r2: Ref)
    | Claim
    | Grant(w: Ref)
    | BeginCommit(w: Ref)
    | Commit(w: Ref)
    | BeginAbort(w: Ref)
    | Abort(w: Ref)
    | BeginClose(w: Ref)
    | Close(w: Ref)
    | DropWriter(w: Ref)
    | Delete

  predicate Enabled(s: Slot, a: Action)
  {
    match a
    case Create(w) => !SharedHeld(s) && w !in s.writers && s.state.Empty?
    case FindCopy(r) => r !in s.copies && s.body.Some?
    case FindCheck(r) => r in s.copies && s.copies[r].phase.Copied?
    case FindDrop(r) => r in s.copies && s.copies[r].phase.Rejected?
    case ReleaseReader(r) => r in s.copies && s.copies[r].phase.Returned?
    case ShareReader(r, r2) => r in s.copies && s.copies[r].phase.Returned? && r2 !in s.copies
    case Claim => s.body.Some? && s.state.Public?
    case Grant(w) => s.claim.Some? && w !in s.writers
    case BeginCommit(w) => w in s.writers && s.writers[w].phase.Live?
    case Commit(w) => !SharedHeld(s) && w in s.writers && s.writers[w].phase.Committing?
    case BeginAbort(w) => w in s.writers && s.writers[w].phase.Live?
    case Abort(w) => !SharedHeld(s) && w in s.writers && s.writers[w].phase.Aborting?
    case BeginClose(w) => w in s.writers && s.writers[w].phase.Live?
    case Close(w) => !SharedHeld(s) && w in s.writers && s.writers[w].phase.Closing?
    case DropWriter(w) => w in s.writers && s.writers[w].phase.Done?
    case Delete => !SharedHeld(s)
  }

  function SetWriter(s: Slot, w: Ref, phase: WriterPhase): Slot
    requires w in s.writers
  {
    s.(writers := s.writers[w := s.writers[w].(phase := phase)])
  }

  /** Drops the current body, if any. */
  function Invalidated(s: Slot): Slot
  {
    if s.body.Some? then s.(deleted := s.deleted + {s.body.value}, body := None) else s
  }

  function Do(s: Slot, a: Action): Slot
    requires Enabled(s, a)
  {
    match a
    case Create(w) =>
      // An existing body would be reused and thawed; otherwise a fresh one is made.
      var b := if s.body.Some? then s.body.value else s.nextBody;
      s.(state := Writing, abortPending := false, body := Some(b), frozen := s.frozen - {b},
         nextBody := if s.body.Some? then s.nextBody else s.nextBody + 1,
         writers := s.writers[w := Writer(b, true, Live, false)])
    case FindCopy(r) => s.(copies := s.copies[r := Copy(s.body.value, Copied)])
    case FindCheck(r) => s.(copies := s.copies[r := s.copies[r].(phase := if s.state.Public? then Returned else Rejected)])
    case FindDrop(r) => s.(copies := s.copies - {r})
    case ReleaseReader(r) => s.(copies := s.copies - {r})
    case ShareReader(r, r2) => s.(copies := s.copies[r2 := s.copies[r]])
    case Claim => s.(state := Writing, claim := s.body)
    case Grant(w) =>
      var b := s.claim.value;
      if SharedOwners(s, b) then s.(state := Public, claim := None)
      else s.(abortPending := false, claim := None, writers := s.writers[w := Writer(b, false, Live, false)])
    case BeginCommit(w) =>
      var b := s.writers[w].body;
      if b in s.frozen then s
      else if b in s.deleted then s.(frozen := s.frozen + {b})
      else SetWriter(s, w, Committing)
    case Commit(w) =>
      var b := s.writers[w].body;
      var s1 := SetWriter(s, w, Live);
      s1.(state := if s.state.Writing? then Public else s.state, frozen := s.frozen + {b},
          writers := s1.writers[w := s1.writers[w].(committed := true)])
    case BeginAbort(w) => if s.writers[w].body in s.deleted then s else SetWriter(s, w, Aborting)
    case Abort(w) => SetWriter(s, w, Live).(abortPending := true)
    case BeginClose(w) => SetWriter(s, w, if s.writers[w].body in s.deleted then Done else Closing)
    case Close(w) =>
      var s1 := SetWriter(s, w, Done);
      if !s.state.Writing? then s1
      else if s.writers[w].fromCreate && s.abortPending then Invalidated(s1).(abortPending := false, state := Empty)
      else s1.(state := Public)
    case DropWriter(w) => s.(writers := s.writers - {w})
    case Delete => Invalidated(s).(state := Empty, abortPending := false)
  }

  predicate Initial(s: Slot)
  {
    s.state.Empty? && s.body.None? && s.claim.None? && s.copies == map[] && s.writers == map[] && s.deleted == {}
  }

  // ---------- the invariant ----------

  /** A handle refers to the slot's body or to a deleted one. */
  predicate Known(s: Slot, b: Body)
  {
    b < s.nextBody && (s.body == Some(b) || b in s.deleted)
  }

  /** A writer that has not closed yet. */
  predicate Open(w: Writer)
  {
    !w.phase.Done?
  }

  ghost predicate Bookkeeping(s: Slot)
  {
    BodyFits(s) && HandlesFit(s)
  }

  ghost predicate BodyFits(s: Slot)
  {
    && (s.state.Empty? <==> s.body.None?)
    && (s.body.Some? ==> s.body.value < s.nextBody && s.body.value !in s.deleted)
    && (forall b :: b in s.deleted ==> b < s.nextBody)
    && (s.claim.Some? ==> s.state.Writing? && s.claim == s.body)
  }

  ghost predicate HandlesFit(s: Slot)
  {
    && CopiesFit(s) && (forall w :: w in s.writers ==> Known(s, s.writers[w].body))
  }

  ghost predicate CopiesFit(s: Slot)
  {
    && (forall r :: r in s.copies ==> Known(s, s.copies[r].body))
    && (forall r :: r in s.copies && !s.copies[r].phase.Returned? ==> s.body == Some(s.copies[r].body))
  }

  /** No body ever has two writer handles. */
  ghost predicate OneWriterPerBody(s: Slot)
  {
    forall v, w :: v in s.writers && w in s.writers && s.writers[v].body == s.writers[w].body ==> v == w
  }

  predicate OwnsWriting(s: Slot, w: Ref)
  {
    w in s.writers && s.body == Some(s.writers[w].body) && Open(s.writers[w])
  }

  /** Writing is owned: by an unchecked claim, or by an open writer handle on the slot's body. */
  ghost predicate WritingOwned(s: Slot)
  {
    s.state.Writing? && s.claim.None? ==> exists w :: OwnsWriting(s, w)
  }

  /** A committed writer no longer owns Writing. */
  ghost predicate CommittedIsDone(s: Slot)
  {
    forall w :: OwnsWriting(s, w) && s.writers[w].committed ==> s.state.Public? || s.claim.Some?
  }

  /** Once Writing is granted, find_graph has no handle on the slot's body in anybody's hands. */
  ghost predicate NoReaderWhileWriting(s: Slot)
  {
    s.state.Writing? && s.claim.None? ==>
      forall r :: r in s.copies && s.copies[r].phase.Returned? ==> s.body != Some(s.copies[r].body)
  }

  ghost predicate Safe(s: Slot)
  {
    Bookkeeping(s) && OneWriterPerBody(s) && WritingOwned(s) && CommittedIsDone(s) && NoReaderWhileWriting(s)
  }

  lemma {:induction false} BookkeepingKept(s: Slot, a: Action)
    requires Safe(s) && Enabled(s, a)
    ensures Bookkeeping(Do(s, a))
  {
    BodyFitsKept(s, a);
    HandlesFitKept(s, a);
  }

  lemma {:induction false} BodyFitsKept(s: Slot, a: Action)
    requires Safe(s) && Enabled(s, a)
    ensures BodyFits(Do(s, a))
  {
  }

  lemma {:induction false} HandlesFitKept(s: Slot, a: Action)
    requires Safe(s) && Enabled(s, a)
    ensures HandlesFit(Do(s, a))
  {
    CopiesFitKept(s, a);
  }

  lemma {:induction false} CopiesFitKept(s: Slot, a: Action)
    requires Safe(s) && Enabled(s, a)
    ensures CopiesFit(Do(s, a))
  {
  }

  lemma {:induction false} OneWriterKept(s: Slot, a: Action)
    requires Safe(s) && Enabled(s, a)
    ensures OneWriterPerBody(Do(s, a))
  {
  }

  lemma {:induction false} WritingOwnedKept(s: Slot, a: Action)
    requires Safe(s) && Enabled(s, a)
    ensures WritingOwned(Do(s, a)) && CommittedIsDone(Do(s, a))
  {
    var s2 := Do(s, a);
    if s2.state.Writing? && s2.claim.None? {
      if a.Create? {
        assert OwnsWriting(s2, a.w);
      } else if a.Grant? {
        assert OwnsWriting(s2, a.w);
      } else {
        var w :| OwnsWriting(s, w);
        assert OwnsWriting(s2, w);
      }
    }
    forall w | OwnsWriting(s2, w) && s2.writers[w].committed
      ensures s2.state.Public? || s2.claim.Some?
    {
      assert !a.Create? && !a.Commit? ==> OwnsWriting(s, w);
    }
  }

  lemma {:induction false} NoReaderKept(s: Slot, a: Action)
    requires Safe(s) && Enabled(s, a)
    ensures NoReaderWhileWriting(Do(s, a))
  {
  }

  // ---------- every interleaving ----------

  /** The state after a series of steps, if all of them were possible. */
  function Exec(s: Slot, actions: seq<Action>): Option<Slot>
  {
    if actions == [] then Some(s)
    else
      match Exec(s, actions[..|actions| - 1])
      case None => None
      case Some(m) => if Enabled(m, actions[|actions| - 1]) then Some(Do(m, actions[|actions| - 1])) else None
  }

  lemma {:induction false} InitialSafe(s: Slot)
    requires Initial(s)
    ensures Safe(s)
  {
  }

  lemma {:induction false} ReachableSafe(s: Slot, actions: seq<Action>)
    requires Initial(s) && Exec(s, actions).Some?
    ensures Safe(Exec(s, actions).value)
  {
    if actions == [] {
      InitialSafe(s);
    } else {
      var init, a := actions[..|actions| - 1], actions[|actions| - 1];
      ReachableSafe(s, init);
      var m := Exec(s, init).value;
      BookkeepingKept(m, a);
      OneWriterKept(m, a);
      WritingOwnedKept(m, a);
      NoReaderKept(m, a);
    }
  }

  /** In every interleaving no body has two writer handles; while the slot is granted for writing there
      is exactly one open writer on its body, uncommitted, and nobody holds a reader on it. */
  lemma {:induction false} WriterIsAlone(s: Slot, actions: seq<Action>)
    requires Initial(s) && Exec(s, actions).Some?
    ensures var m := Exec(s, actions).value;
            && (forall v, w :: v in m.writers && w in m.writers && m.writers[v].body == m.writers[w].body ==> v == w)
            && (m.state.Writing? && m.claim.None? ==>
                  && (exists w :: OwnsWriting(m, w) && !m.writers[w].committed && forall v :: OwnsWriting(m, v) ==> v == w)
                  && (forall r :: r in m.copies && m.copies[r].phase.Returned? ==> m.body != Some(m.copies[r].body)))
  {
    ReachableSafe(s, actions);
    var m := Exec(s, actions).value;
    if m.state.Writing? && m.claim.None? {
      var w :| OwnsWriting(m, w);
      assert !m.writers[w].committed;
    }
  }

  // ---------- what the operations achieve ----------

  /** A claim of a public slot ends in an open writer on its body exactly when nobody else holds the body; otherwise the slot is
      what it was. */
  lemma {:induction false} ClaimGrants(s: Slot, w: Ref)
    requires Safe(s) && s.state.Public? && !SharedHeld(s) && w !in s.writers
    ensures s.body.Some? && Enabled(s, Claim) && Enabled(Do(s, Claim), Grant(w))
    ensures
      var u := Do(Do(s, Claim), Grant(w));
      if SharedOwners(s, s.body.value) then u == s
      else u == s.(state := Writing, abortPending := false, writers := s.writers[w := Writer(s.body.value, false, Live, false)])
  {
  }

  /** A copy that is checked at once is handed out exactly when the slot is public. */
  lemma {:induction false} FindReturns(s: Slot, r: Ref)
    requires Safe(s) && s.body.Some? && r !in s.copies
    ensures Enabled(s, FindCopy(r)) && Enabled(Do(s, FindCopy(r)), FindCheck(r))
    ensures
      Do(Do(s, FindCopy(r)), FindCheck(r)) ==
      s.(copies := s.copies[r := Copy(s.body.value, if s.state.Public? then Returned else Rejected)])
  {
  }

  /** An empty slot gives a new body with an open writer. */
  lemma {:induction false} CreateOpens(s: Slot, w: Ref)
    requires Safe(s) && s.state.Empty? && !SharedHeld(s) && w !in s.writers
    ensures Enabled(s, Create(w))
    ensures
      var u := Do(s, Create(w));
      u.state.Writing? && u.claim.None? && u.body == Some(s.nextBody) && u.writers == s.writers[w := Writer(s.nextBody, true, Live, false)]
      && s.nextBody !in u.frozen && s.nextBody !in s.deleted && !u.abortPending && u.copies == s.copies
  {
  }

  /** A commit of the slot's body, checked and done at once, makes it public and freezes it. */
  lemma {:induction false} CommitPublishes(s: Slot, w: Ref)
    requires Safe(s) && !SharedHeld(s) && OwnsWriting(s, w) && s.writers[w].phase.Live? && s.writers[w].body !in s.frozen && s.state.Writing?
    ensures Enabled(s, BeginCommit(w)) && Enabled(Do(s, BeginCommit(w)), Commit(w))
    ensures
      Do(Do(s, BeginCommit(w)), Commit(w)) ==
      s.(state := Public, frozen := s.frozen + {s.writers[w].body}, writers := s.writers[w := s.writers[w].(committed := true)])
  {
    assert s.writers[w].(phase := Committing).(phase := Live) == s.writers[w];
  }

  /** A writer that is closed in writing publishes the body, unless it created it and an abort is pending: then the body goes. */
  lemma {:induction false} CloseEnds(s: Slot, w: Ref)
    requires Safe(s) && !SharedHeld(s) && OwnsWriting(s, w) && s.writers[w].phase.Live? && s.state.Writing?
    ensures Enabled(s, BeginClose(w)) && Enabled(Do(s, BeginClose(w)), Close(w))
    ensures
      var u := Do(Do(s, BeginClose(w)), Close(w));
      u.writers == s.writers[w := s.writers[w].(phase := Done)]
      && if s.writers[w].fromCreate && s.abortPending then u.state.Empty? && u.body.None? && u.deleted == s.deleted + {s.writers[w].body} && !u.abortPending
         else u.state.Public? && u.body == s.body && u.deleted == s.deleted
  {
  }

  /** A reader that was looked up can be given back, or shared, and a copy that was turned down can be dropped; nothing else changes. */
  lemma {:induction false} ReadersGoBack(s: Slot, r: Ref)
    requires r in s.copies && !s.copies[r].phase.Copied?
    ensures
      var a := if s.copies[r].phase.Returned? then ReleaseReader(r) else FindDrop(r);
      Enabled(s, a) && Do(s, a) == s.(copies := s.copies - {r})
    ensures forall r2 :: r2 !in s.copies ==>
              (Enabled(s, ShareReader(r, r2)) <==> s.copies[r].phase.Returned?)
              && (s.copies[r].phase.Returned? ==> Do(s, ShareReader(r, r2)) == s.(copies := s.copies[r2 := s.copies[r]]))
  {
  }

  /** An abort of a body that is not deleted, checked and done at once, marks the slot and changes nothing else. */
  lemma {:induction false} AbortMarks(s: Slot, w: Ref)
    requires Safe(s) && !SharedHeld(s) && w in s.writers && s.writers[w].phase.Live? && s.writers[w].body !in s.deleted
    ensures Enabled(s, BeginAbort(w)) && Enabled(Do(s, BeginAbort(w)), Abort(w))
    ensures Do(Do(s, BeginAbort(w)), Abort(w)) == s.(abortPending := true)
  {
    assert s.writers[w].(phase := Aborting).(phase := Live) == s.writers[w];
  }

  /** A deletion leaves the slot empty and the body deleted, whoever holds it. */
  lemma {:induction false} DeleteEmpties(s: Slot)
    requires Safe(s) && !SharedHeld(s)
    ensures Enabled(s, Delete)
    ensures
      var u := Do(s, Delete);
      u.state.Empty? && u.body.None? && !u.abortPending && u.copies == s.copies && u.writers == s.writers
      && u.deleted == s.deleted + (if s.body.Some? then {s.body.value} else {})
  {
  }

  // ---------- what find_graph hides ----------

  /** An open writer that has not committed keeps its body out of find_graph's reach. */
  ghost predicate Hidden(s: Slot)
  {
    forall w :: OwnsWriting(s, w) && !s.writers[w].committed ==> s.state.Writing? && s.claim.None?
  }

  /** A commit or final release that passed its unlocked check before the body was deleted, and now
      publishes the slot although the slot belongs to the body's successor. */
  predicate Overtakes(s: Slot, a: Action)
  {
    s.state.Writing? &&
    match a
    case Commit(w) => w in s.writers && s.writers[w].body in s.deleted
    case Close(w) => w in s.writers && s.writers[w].body in s.deleted && !(s.writers[w].fromCreate && s.abortPending)
    case _ => false
  }

  /** A step keeps uncommitted bodies hidden exactly when it is not such an overtaking step. */
  lemma {:induction false} HiddenIff(s: Slot, a: Action)
    requires Safe(s) && Hidden(s) && Enabled(s, a)
    ensures Hidden(Do(s, a)) <==> !Overtakes(s, a)
  {
    var s2 := Do(s, a);
    if Overtakes(s, a) {
      var w :| OwnsWriting(s, w);
      assert OwnsWriting(s2, w) && !s2.writers[w].committed;
    } else {
      forall w | OwnsWriting(s2, w) && !s2.writers[w].committed
        ensures s2.state.Writing? && s2.claim.None?
      {
        assert !a.Create? && !a.Grant? ==> OwnsWriting(s, w);
      }
    }
  }

  lemma {:induction false} ReachableHidden(s: Slot, actions: seq<Action>)
    requires Initial(s) && Exec(s, actions).Some?
    requires forall i :: 0 <= i < |actions| && Exec(s, actions[..i]).Some? ==> !Overtakes(Exec(s, actions[..i]).value, actions[i])
    ensures Hidden(Exec(s, actions).value)
  {
    if actions != [] {
      var init, a := actions[..|actions| - 1], actions[|actions| - 1];
      forall i | 0 <= i < |init|
        ensures init[..i] == actions[..i]
      {
      }
      ReachableSafe(s, init);
      ReachableHidden(s, init);
      HiddenIff(Exec(s, init).value, a);
    }
  }

  lemma {:induction false} ExecStep(s: Slot, init: seq<Action>, m: Slot, a: Action)
    requires Exec(s, init) == Some(m) && Enabled(m, a)
    ensures Exec(s, init + [a]) == Some(Do(m, a))
  {
    assert (init + [a])[..|init + [a]| - 1] == init;
  }

  /** A writer that passed an unlocked check, and the writer of the body that has replaced its own. */
  predicate Replaced(m: Slot, first: Body, phase: WriterPhase)
  {
    m.state.Writing? && !m.abortPending && m.body == Some(first + 1) && m.deleted == {first} && m.claim.None? && m.copies == map[]
    && m.writers == map[0 := Writer(first, true, phase, false), 1 := Writer(first + 1, true, Live, false)]
  }

  /** Between the check and the locked section of a final release or of an abort, the body is deleted and created anew. */
  lemma {:induction false} ReplacedMeanwhile(s: Slot, b: Action) returns (run: seq<Action>, m: Slot)
    requires Initial(s) && (b == BeginClose(0) || b == BeginAbort(0))
    ensures run == [Create(0), b, Delete, Create(1)] && Exec(s, run) == Some(m)
    ensures Replaced(m, s.nextBody, if b.BeginClose? then Closing else Aborting)
  {
    var phase := if b.BeginClose? then Closing else Aborting;
    var s1 := Do(s, Create(0));
    ExecStep(s, [], s, Create(0));
    assert s1.writers == map[0 := Writer(s.nextBody, true, Live, false)];
    run := [] + [Create(0)];
    var s2 := Do(s1, b);
    ExecStep(s, run, s1, b);
    assert s2.writers == map[0 := Writer(s.nextBody, true, phase, false)];
    run := run + [b];
    var s3 := Do(s2, Delete);
    ExecStep(s, run, s2, Delete);
    assert s3.deleted == {s.nextBody};
    run := run + [Delete];
    m := Do(s3, Create(1));
    ExecStep(s, run, s3, Create(1));
    run := run + [Create(1)];
  }

  /** Such a step can happen: a writer passes the check of its final release, its body is deleted and
      created anew, the release publishes the new body, and find_graph hands it out while its writer is
      still at work. */
  lemma {:induction false} OvertakingHappens(s: Slot)
    requires Initial(s)
    ensures var r := Exec(s, [Create(0), BeginClose(0), Delete, Create(1), Close(0), FindCopy(0), FindCheck(0)]);
            && r.Some? && 1 in r.value.writers && r.value.writers[1].phase.Live? && !r.value.writers[1].committed
            && 0 in r.value.copies && r.value.copies[0].phase.Returned?
            && r.value.copies[0].body == r.value.writers[1].body && r.value.body == Some(r.value.writers[1].body)
  {
    var run, m := ReplacedMeanwhile(s, BeginClose(0));
    PublishedMeanwhile(s, run, m, s.nextBody);
    assert run + [Close(0)] + [FindCopy(0)] + [FindCheck(0)] ==
           [Create(0), BeginClose(0), Delete, Create(1), Close(0), FindCopy(0), FindCheck(0)];
  }

  lemma {:induction false} PublishedMeanwhile(s: Slot, run: seq<Action>, m: Slot, first: Body)
    requires Exec(s, run) == Some(m) && Replaced(m, first, Closing)
    ensures var r := Exec(s, run + [Close(0)] + [FindCopy(0)] + [FindCheck(0)]);
            r.Some? && r.value.body == Some(first + 1) && r.value.copies == map[0 := Copy(first + 1, Returned)]
            && 1 in r.value.writers && r.value.writers[1] == Writer(first + 1, true, Live, false)
  {
    var m1 := Do(m, Close(0));
    ExecStep(s, run, m, Close(0));
    assert m1.state.Public? && m1.copies == map[];
    var m2 := Do(m1, FindCopy(0));
    ExecStep(s, run + [Close(0)], m1, FindCopy(0));
    assert m2.copies == map[0 := Copy(first + 1, Copied)];
    ExecStep(s, run + [Close(0)] + [FindCopy(0)], m2, FindCheck(0));
  }

  /** An abort can overtake as well: it then marks the new body, which is dropped when its own writer is released. */
  lemma {:induction false} AbortHitsSuccessor(s: Slot)
    requires Initial(s)
    ensures var r := Exec(s, [Create(0), BeginAbort(0), Delete, Create(1), Abort(0), BeginClose(1), Close(1)]);
            r.Some? && 1 in r.value.writers && r.value.writers[1].body in r.value.deleted && r.value.body == None && r.value.state.Empty?
  {
    var run, m := ReplacedMeanwhile(s, BeginAbort(0));
    DroppedLater(s, run, m, s.nextBody);
    assert run + [Abort(0)] + [BeginClose(1)] + [Close(1)] ==
           [Create(0), BeginAbort(0), Delete, Create(1), Abort(0), BeginClose(1), Close(1)];
  }

  lemma {:induction false} DroppedLater(s: Slot, run: seq<Action>, m: Slot, first: Body)
    requires Exec(s, run) == Some(m) && Replaced(m, first, Aborting)
    ensures var r := Exec(s, run + [Abort(0)] + [BeginClose(1)] + [Close(1)]);
            r.Some? && r.value.body == None && r.value.state.Empty? && first + 1 in r.value.deleted
            && 1 in r.value.writers && r.value.writers[1].body == first + 1
  {
    var m1 := Do(m, Abort(0));
    ExecStep(s, run, m, Abort(0));
    assert m1.abortPending && m1.writers[1] == Writer(first + 1, true, Live, false) && m1.copies == map[];
    var m2 := Do(m1, BeginClose(1));
    ExecStep(s, run + [Abort(0)], m1, BeginClose(1));
    assert m2.writers[1] == Writer(first + 1, true, Closing, false);
    ExecStep(s, run + [Abort(0)] + [BeginClose(1)], m2, Close(1));
  }
}
