/**
 What the journal and its readers and writers do get done: the other side of the safety results, on the same steps.
 */
module FenceProgress {
  import opened Wrappers
  import J = Journal
  import opened ReadFence

  // ----- what a reader sees -----

  /**
   Hiding nothing shows the graph; hiding more hides what either would; nothing hidden is shown, nothing else lost.
   */
  lemma ViewsCompose(g: J.Graph, a: set<Id>, b: set<Id>)
    ensures J.View(g, {}) == g
    ensures J.View(J.View(g, a), b) == J.View(g, a + b)
    ensures forall n :: n in g.nodes && n !in a ==> n in J.View(g, a).nodes && J.View(g, a).nodes[n] == g.nodes[n]
    ensures forall n :: n in a ==> n !in J.View(g, a).nodes
    ensures forall e :: e in J.View(g, a).edges ==> e.from !in a && e.to !in a
  {
  }

  /** Relationships connect CIs that exist. */
  ghost predicate Connected(g: J.Graph) {
    forall e :: e in g.edges ==> e.from in g.nodes && e.to in g.nodes
  }

  /** A write leaves no dangling relationship, and does to the CI or relationship it names what it says. */
  lemma WritesDoWhatTheySay(w: J.GraphWrite, g: J.Graph)
    requires Connected(g) && J.Apply(w, g).Some?
    ensures Connected(J.Apply(w, g).value)
    ensures
      var g' := J.Apply(w, g).value;
      match w
      case CreateCI(id, props) => id !in g.nodes && g'.nodes == g.nodes[id := props] && g'.edges == g.edges
      case UpdateCI(id, props) =>
        && id in g.nodes && g'.nodes.Keys == g.nodes.Keys && g'.edges == g.edges
        && (forall k :: k in props ==> k in g'.nodes[id] && g'.nodes[id][k] == props[k])
        && (forall k :: k in g.nodes[id] && k !in props ==> k in g'.nodes[id] && g'.nodes[id][k] == g.nodes[id][k])
      case DeleteCI(id) =>
        && id in g.nodes && g'.nodes == g.nodes - {id}
        && forall e :: e in g'.edges <==> e in g.edges && e.from != id && e.to != id
      case CreateRelationship(e, props) =>
        && g'.nodes == g.nodes && g'.edges.Keys == g.edges.Keys + {e}
        && forall k :: k in props ==> k in g'.edges[e] && g'.edges[e][k] == props[k]
      case DeleteRelationship(e) => e in g.edges && g'.nodes == g.nodes && g'.edges == g.edges - {e}
  {
  }

  // ----- the journal -----

  /** Events one after another, each possible when its turn comes. */
  ghost predicate Happens(o: J.Org, es: seq<J.JournalEvent>, o': J.Org)
    decreases |es|
  {
    if es == [] then o' == o else J.Enabled(o, es[0]) && Happens(J.Step(o, es[0]), es[1..], o')
  }

  lemma HappensNext(o: J.Org, e: J.JournalEvent, es: seq<J.JournalEvent>, o': J.Org)
    requires J.Enabled(o, e) && Happens(J.Step(o, e), es, o')
    ensures Happens(o, [e] + es, o')
  {
    assert ([e] + es)[1..] == es;
  }

  /** A write that can be applied gets there: reserve, plan, write, settle -- and then its CIs are no gap any more. */
  lemma JournaledWriteCompletes(o: J.Org, g: nat, cis: set<Id>, w: J.GraphWrite) returns (o': J.Org)
    requires g !in o.groups && cis !! J.Gap(o) && o.shared == {} && |J.Gap(o)| + |cis| <= 1000
    requires J.Touches(w) <= cis && cis != {} && J.Apply(w, o.graph).Some?
    ensures Happens(o, [J.T1(g, cis), J.T1b(g, Some(w)), J.W(g), J.T2(g)], o')
    ensures o'.graph == J.Apply(w, o.graph).value && J.Gap(o') == J.Gap(o) && o'.epoch == o.epoch + 1
  {
    var o1 := J.Step(o, J.T1(g, cis));
    var o2 := J.Step(o1, J.T1b(g, Some(w)));
    var o3 := J.Step(o2, J.W(g));
    var c :| c in cis;
    assert o3.groups[g].fences[c] == J.Applied;
    o' := J.Step(o3, J.T2(g));
    assert Happens(o', [], o');
    HappensNext(o3, J.T2(g), [], o');
    HappensNext(o2, J.W(g), [J.T2(g)], o');
    HappensNext(o1, J.T1b(g, Some(w)), [J.W(g)] + [J.T2(g)], o');
    HappensNext(o, J.T1(g, cis), [J.T1b(g, Some(w))] + ([J.W(g)] + [J.T2(g)]), o');
    assert [J.T1(g, cis)] + ([J.T1b(g, Some(w))] + ([J.W(g)] + [J.T2(g)])) ==
           [J.T1(g, cis), J.T1b(g, Some(w)), J.W(g), J.T2(g)];
    ClosedGroupIsNoGap(o, o', g);
  }

  /** A failed operation stays in the gap until an operator requeues it, which puts everything back. */
  lemma FailedWriteIsRequeued(o: J.Org, g: nat)
    requires J.Enabled(o, J.Fail(g))
    ensures var o' := J.Step(o, J.Fail(g));
            && o' != o && o'.graph == o.graph && o'.epoch == o.epoch && J.Gap(o') == J.Gap(o)
            && !J.Enabled(o', J.T2(g)) && !J.Enabled(o', J.SweepAbort(g))
            && J.Enabled(o', J.Requeue(g)) && J.Step(o', J.Requeue(g)) == o
  {
    var o' := J.Step(o, J.Fail(g));
    assert o.groups[g].state == J.Pending && o'.groups[g].state == J.Failed;
    assert J.Step(o', J.Requeue(g)).groups == o.groups;
    forall c ensures c in J.Gap(o') <==> c in J.Gap(o) {
      if h :| h in o.groups && J.Open(o.groups[h]) && c in o.groups[h].cis {
        assert h in o'.groups && J.Open(o'.groups[h]) && c in o'.groups[h].cis;
      }
      if h :| h in o'.groups && J.Open(o'.groups[h]) && c in o'.groups[h].cis {
        assert h in o.groups && J.Open(o.groups[h]) && c in o.groups[h].cis;
      }
    }
  }

  /**
   A request that gives up closes its reservation, unless it was failed meanwhile and waits for an operator; it never
   writes afterwards, and nobody else is affected.
   */
  lemma AbortedWriteIsOver(o: J.Org, g: nat)
    requires J.Enabled(o, J.RequestAbort(g))
    ensures var o' := J.Step(o, J.RequestAbort(g));
            && o'.graph == o.graph && o'.epoch == o.epoch
            && o'.groups.Keys == o.groups.Keys && (forall h :: h in o.groups && h != g ==> o'.groups[h] == o.groups[h])
            && o'.groups[g].cis == o.groups[g].cis && o'.groups[g].fences == o.groups[g].fences
            && (J.Open(o'.groups[g]) <==> o.groups[g].state == J.Failed)
            && !J.Enabled(o', J.W(g)) && !J.Enabled(o', J.T1b(g, None))
  {
  }

  lemma ClosedGroupIsNoGap(o: J.Org, o': J.Org, g: nat)
    requires g !in o.groups && g in o'.groups && !J.Open(o'.groups[g]) && o'.groups == o.groups[g := o'.groups[g]]
    ensures J.Gap(o') == J.Gap(o)
  {
    forall c | c in J.Gap(o) ensures c in J.Gap(o') {
      var h :| h in o.groups && J.Open(o.groups[h]) && c in o.groups[h].cis;
      assert h in o'.groups && o'.groups[h] == o.groups[h];
    }
    forall c | c in J.Gap(o') ensures c in J.Gap(o) {
      var h :| h in o'.groups && J.Open(o'.groups[h]) && c in o'.groups[h].cis;
      assert h in o.groups && o'.groups[h] == o.groups[h];
    }
  }

  /**
   A reservation whose request went away is swept: a refusing fence decides it, and its gap closes with the graph
   untouched.
   */
  lemma AbandonedWriteIsSwept(o: J.Org, g: nat, c: Id) returns (o': J.Org)
    requires g !in o.groups && c !in J.Gap(o) && o.shared == {} && |J.Gap(o)| + 1 <= 1000
    ensures Happens(o, [J.T1(g, {c}), J.SweepFence(g, c), J.SweepAbort(g)], o')
    ensures o'.graph == o.graph && J.Gap(o') == J.Gap(o)
    ensures !J.Enabled(o', J.W(g))
  {
    var o1 := J.Step(o, J.T1(g, {c}));
    var o2 := J.Step(o1, J.SweepFence(g, c));
    assert o2.groups[g].fences[c] == J.Refused;
    o' := J.Step(o2, J.SweepAbort(g));
    assert Happens(o', [], o');
    HappensNext(o2, J.SweepAbort(g), [], o');
    HappensNext(o1, J.SweepFence(g, c), [J.SweepAbort(g)], o');
    HappensNext(o, J.T1(g, {c}), [J.SweepFence(g, c)] + [J.SweepAbort(g)], o');
    assert [J.T1(g, {c})] + ([J.SweepFence(g, c)] + [J.SweepAbort(g)]) ==
           [J.T1(g, {c}), J.SweepFence(g, c), J.SweepAbort(g)];
    ClosedGroupIsNoGap(o, o', g);
  }

  // ----- list reads -----

  /**
   The second snapshot decides: the answer if epoch and pending set are the same, else the fallback if a slot is free.
   */
  lemma SecondSnapshotDecides(org: string, epoch: nat, r: Read, list: seq<Id>, o: J.Org, holds: bool, active: nat)
    requires Answers(list, o)
    ensures
      var m := React(Optimistic(org, epoch, r), SecondSnapshot(list), o, holds, active);
      var same := o.epoch == epoch && |r.pending| == |list| && Elements(r.pending) == Elements(list);
      && m.Some?
      && (m.value.client == Returned(org, r) <==> |list| <= 1000 && same)
      && (m.value.client == Connecting(org) <==> |list| <= 1000 && !same && active < 2)
      && (m.value.client == Unavailable(org) <==> |list| > 1000 || (!same && active >= 2))
  {
    SamePendingDecidesEquality(r.pending, list);
  }

  /** Each query of the read sees the graph of its moment without the CIs the snapshot named. */
  lemma QueriesSeeTheGraph(org: string, epoch: nat, r: Read, o: J.Org, holds: bool, active: nat)
    ensures React(Optimistic(org, epoch, r), Observe, o, holds, active) ==
            Some(Quiet(Optimistic(org, epoch, r.(seen := r.seen + [J.View(o.graph, Elements(r.pending))]))))
    ensures React(Fallback(org, r), Observe, o, holds, active) ==
            Some(Quiet(Fallback(org, r.(seen := r.seen + [J.View(o.graph, Elements(r.pending))]))))
  {
  }

  /** Where call `c` stands, and the organization it works for. */
  predicate StandsAt(s: State, c: nat, client: Client, o: J.Org) {
    c in s.clients && s.clients[c] == client && OrgOf(s, client.org) == o
  }

  lemma Moves(s: State, c: nat, e: ClientEvent, client: Client, o: J.Org, m: Move, o': J.Org)
    requires StandsAt(s, c, client, o) && m.client.org == client.org
    requires React(client, e, o, c in o.shared, ActiveOf(s, client.org)) == Some(m)
    requires o' == o.(shared := MoveLock(o.shared, c, m.lock))
    ensures StandsAt(Step(s, Call(c, e)), c, m.client, o')
  {
  }

  /** A read that nothing disturbs answers without the lock, from the graph without the pending and failed CIs. */
  lemma QuietReadAnswers(s: State, c: nat, org: string, list: seq<Id>, again: seq<Id>)
    requires c !in s.clients && |J.Gap(OrgOf(s, org))| <= 1000
    requires Answers(list, OrgOf(s, org)) && Answers(again, OrgOf(s, org))
    ensures
      var s1 := Step(s, Call(c, BeginRead(org)));
      var s2 := Step(s1, Call(c, FirstSnapshot(list)));
      var s3 := Step(s2, Call(c, Observe));
      var s4 := Step(s3, Call(c, SecondSnapshot(again)));
      var view := J.View(OrgOf(s, org).graph, J.Gap(OrgOf(s, org)));
      c in s4.clients && s4.clients[c] == Returned(org, Read(list, view, [view]))
  {
    var o := OrgOf(s, org);
    AcceptedListIsComplete(list, J.Gap(o));
    AcceptedListIsComplete(again, J.Gap(o));
    SamePendingDecidesEquality(list, again);
    var view := J.View(o.graph, J.Gap(o));
    var r0, r1 := Read(list, view, []), Read(list, view, [view]);
    assert Elements(list) == J.Gap(o) && FreshRead(list, o) == r0;
    assert Observed(r0, o) == r1;
    var s1 := Step(s, Call(c, BeginRead(org)));
    assert StandsAt(s1, c, Starting(org), o);
    var s2 := Step(s1, Call(c, FirstSnapshot(list)));
    Moves(s1, c, FirstSnapshot(list), Starting(org), o, Quiet(Optimistic(org, o.epoch, r0)), o);
    var s3 := Step(s2, Call(c, Observe));
    Moves(s2, c, Observe, Optimistic(org, o.epoch, r0), o, Quiet(Optimistic(org, o.epoch, r1)), o);
    Moves(s3, c, SecondSnapshot(again), Optimistic(org, o.epoch, r1), o, Quiet(Returned(org, r1)), o);
  }

  /** So does a read in the fallback: with the lock granted, its query and its recheck go through. */
  lemma LockedReadIsChecked(s: State, c: nat, org: string, list: seq<Id>, again: seq<Id>)
    requires c in s.clients && s.clients[c] == Locked(org) && c in OrgOf(s, org).shared
             && |J.Gap(OrgOf(s, org))| <= 1000
    requires Answers(list, OrgOf(s, org)) && Answers(again, OrgOf(s, org))
    ensures
      var s1 := Step(s, Call(c, FallbackSnapshot(list)));
      var s2 := Step(s1, Call(c, Observe));
      var s3 := Step(s2, Call(c, Recheck(again)));
      var view := J.View(OrgOf(s, org).graph, J.Gap(OrgOf(s, org)));
      StandsAt(s3, c, Checked(org, Read(list, view, [view])), OrgOf(s, org))
  {
    var o := OrgOf(s, org);
    AcceptedListIsComplete(list, J.Gap(o));
    AcceptedListIsComplete(again, J.Gap(o));
    SamePendingDecidesEquality(list, again);
    var view := J.View(o.graph, J.Gap(o));
    var r0, r1 := Read(list, view, []), Read(list, view, [view]);
    assert Elements(list) == J.Gap(o) && FreshRead(list, o) == r0;
    assert Observed(r0, o) == r1;
    var s1 := Step(s, Call(c, FallbackSnapshot(list)));
    Moves(s, c, FallbackSnapshot(list), Locked(org), o, Quiet(Fallback(org, r0)), o);
    var s2 := Step(s1, Call(c, Observe));
    Moves(s1, c, Observe, Fallback(org, r0), o, Quiet(Fallback(org, r1)), o);
    Moves(s2, c, Recheck(again), Fallback(org, r1), o, Quiet(Checked(org, r1)), o);
  }

  /** And a checked read is returned as it was read, with lock and slot given back. */
  lemma CheckedReadIsReturned(s: State, c: nat, org: string, r: Read)
    requires c in s.clients && s.clients[c] == Checked(org, r) && c in OrgOf(s, org).shared
    ensures
      var s2 := Step(Step(s, Call(c, Commit)), Call(c, Finish));
      && c in s2.clients && s2.clients[c] == Returned(org, r) && c !in OrgOf(s2, org).shared
      && s2.active == MoveSlot(s.active, org, LeaveSlot)
  {
    var o := OrgOf(s, org);
    var free := o.(shared := o.shared - {c});
    var s1 := Step(s, Call(c, Commit));
    Moves(s, c, Commit, Checked(org, r), o, Move(Leaving(org, Some(r)), DropLock, KeepSlot), free);
    Moves(s1, c, Finish, Leaving(org, Some(r)), free, Move(Returned(org, r), KeepLock, LeaveSlot), free);
  }

  // ----- referenced writes -----

  /** The gap check lets a write that holds its lock go on exactly when none of its CIs is pending or failed. */
  lemma GapCheckDecides(org: string, cis: set<Id>, o: J.Org, active: nat)
    ensures
      var m := React(Granted(org, cis), CheckGap, o, true, active);
      (m == Some(Quiet(Clear(org, cis, 0))) <==> forall c :: c in cis ==> c !in J.Gap(o)) &&
      (m.None? <==> exists c :: c in cis && c in J.Gap(o))
  {
  }

  /** An undisturbed write that holds its lock and whose CIs are outside the gap commits, and gives the lock back. */
  lemma QuietWriteCommits(s: State, c: nat, org: string, cis: set<Id>)
    requires c in s.clients && s.clients[c] == Granted(org, cis) && c in OrgOf(s, org).shared
    requires cis !! J.Gap(OrgOf(s, org))
    ensures
      var s1 := Step(s, Call(c, CheckGap));
      var s2 := Step(s1, Call(c, Write));
      var s3 := Step(s2, Call(c, Commit));
      c in s3.clients && s3.clients[c] == Client.Committed(org, cis) && c !in OrgOf(s3, org).shared
  {
    var o := OrgOf(s, org);
    var free := o.(shared := o.shared - {c});
    var s1 := Step(s, Call(c, CheckGap));
    Moves(s, c, CheckGap, Granted(org, cis), o, Quiet(Clear(org, cis, 0)), o);
    var s2 := Step(s1, Call(c, Write));
    Moves(s1, c, Write, Clear(org, cis, 0), o, Quiet(Clear(org, cis, 1)), o);
    Moves(s2, c, Commit, Clear(org, cis, 1), o, Move(Client.Committed(org, cis), DropLock, KeepSlot), free);
  }

  /** Both kinds of call are granted the shared lock whenever they ask, as no T1 is under way between events. */
  lemma LockIsGranted(s: State, c: nat, org: string, cis: set<Id>)
    requires c in s.clients && (s.clients[c] == Connecting(org) || s.clients[c] == Queued(org, cis))
    ensures
      var s' := Step(s, Call(c, GrantShared));
      && c in s'.clients && c in OrgOf(s', org).shared
      && s'.clients[c] == if s.clients[c].Queued? then Granted(org, cis) else Locked(org)
  {
  }
}
